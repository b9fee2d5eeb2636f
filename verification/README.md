# Broken-telephone ring: registry and relay bookkeeping in Dafny

This project models the controller-side ring registry and the relay
bookkeeping of `ApiServicesImpl`, the single Spring service of a
"broken telephone" ring of nodes. Transport is stripped out, so what remains
is a sequential state machine over one service instance:

- `NodeState` (module `ServiceState`) holds the instance's fields. These are
  the registry `nodes` (a `seq<Node>` in join order), the downstream
  `nextNode`, the causal clock `xGameTimestamp`, the waiting and completed
  play responses, the result latch, and the injected configuration.
- Each request is a pure function from a state and the request's nullable
  arguments (`Option`s) to a `Step`. A `Step` holds three things: the result
  or the exception the request ends with, the state afterwards, and the
  outbound HTTP calls it made, in order.
- The network is an oracle `Transport = (Call, nat) -> bool`. It says whether
  an outbound `/relay` or `/reconfigure` post returns normally, given the post
  and its attempt number within the request (0 for the first post, 1 for the
  relay fallback). A fallback that repeats the very same post can therefore
  fare differently from the first one (`Relay.FallbackToSameAddressMayBeDelivered`).
  Outcomes do not depend on anything else, such as earlier requests.
- `doHash` is a parameter `Hasher = (salt, text) -> digest`.

Modules:

- `Wrappers`: `Option` and `Result`.
- `NodeModel`: the `Node` entry and `RegisterResponse`. It also defines the
  uuid lookup (`find`), the structural `indexOf`, and `removeAt`.
- `ServiceState`: configuration, signatures, `PlayResponse`, `NodeState`,
  errors and calls.
- `Registry`: `registerNode`, `unregisterNode` and `reconfigure`.
- `Relay`: `clientSign`, `newResponse` and `validatePlayResult`. It also
  models `sendRelayMessage`, `relayMessage` and the synchronous part of
  `sendMessage` (`StartSend`), plus the end of its wait (`FinishSend`).
- `Ring`: runs of requests (`Apply`, `Run`), the registry invariant, the
  join order, replay, undoing a join or a relink, chains of hops, and the
  origin's round trip.

Behaviour worth knowing. The model follows the code in each of these cases,
even where it differs from how the protocol is usually described:

- A registry entry's `nextHost`/`nextPort` is the joiner's own address. A
  fresh join is answered with the address of the entry that was last before
  it. A replay with the right salt is answered with the stored entry's
  fields, which is the joiner's own address and not the one it got at join
  time (`Ring.ReplayAfterJoin`).
- A fresh join's answer carries the controller's configured timeout and
  current clock, not the predecessor entry's.
- A wrong salt on replay gives a 401 response (a returned value). A wrong salt
  on leave or relink gives a thrown BadRequest.
- On leave, the reconfigure request goes to the address of entry `index+1`.
  It carries the uuid, salt and address of entry `index-1`. For entry 0 that
  is not last, this read is out of bounds and the leave ends in an error.
- `reconfigure` rewrites a registry entry on the instance that receives it.
  It never touches that instance's `nextNode`. Its three fields are written
  one after another, so a missing later argument leaves the earlier ones
  written.
- Only the forwarding branch of `relayMessage` checks the timestamp. The
  terminal branch consumes the waiting message whatever the timestamp is.
- `sendMessage` has no check for a message already waiting. It overwrites
  the waiting slot. If its relay fails, the slot stays filled.
- `Node`'s fields are declared `val` but `reconfigure` assigns them. The model
  replaces the entry at its position.
- `sendRelayMessage` parses the content type for the message part's header
  before its `try`. A malformed type throws there: no relay, no fallback, no
  clock change. A message part without a content type is signed as "nada",
  which never parses, so such a message dies at the first forwarding hop
  (`Relay.UntypedPartNeverForwarded`).
- `Ring.Apply` runs joins and relinks through the corrected members listed
  under "## Findings". The lemmas about join sequences, replay and undo are
  stated on the code as written, under preconditions where the two agree.

## Model

All source paths are under `app/src/main/kotlin/ar/edu/austral/inf/sd/`.

| member | source | states |
|---|---|---|
| NodeModel.FindIndex | app/src/main/kotlin/ar/edu/austral/inf/sd/ApiServicesImpl.kt:130 | the uuid lookup yields the first position holding that uuid, and is absent exactly when no entry holds it |
| NodeModel.IndexOf | app/src/main/kotlin/ar/edu/austral/inf/sd/ApiServicesImpl.kt:139 | `indexOf` yields -1 exactly when no structurally equal entry exists, else the first equal position |
| NodeModel.RemoveAt | app/src/main/kotlin/ar/edu/austral/inf/sd/ApiServicesImpl.kt:160 | removal drops exactly one position and keeps the relative order of all the others |
| NodeModel.IndexOfAgreesWithFind | app/src/main/kotlin/ar/edu/austral/inf/sd/server/model/Node.kt:6-13 | because data-class equality is structural, `indexOf` of the found entry is the uuid lookup's position, even with repeated uuids |
| NodeModel.FindUnique | app/src/main/kotlin/ar/edu/austral/inf/sd/ApiServicesImpl.kt:71 | with unique uuids, looking up an entry's uuid finds that very entry |
| NodeModel.RemoveAtKeepsUnique | app/src/main/kotlin/ar/edu/austral/inf/sd/ApiServicesImpl.kt:160 | removing an entry keeps uuids unique and leaves its uuid unfindable |
| Registry.RegisterNode | app/src/main/kotlin/ar/edu/austral/inf/sd/ApiServicesImpl.kt:66-92 | empty or missing input fails with BadRequest and leaves the registry alone; a known uuid is ACCEPTED with its stored entry (right salt) or UNAUTHORIZED (wrong salt), registry unchanged; a fresh uuid appends exactly one entry after the unchanged earlier ones and is answered CREATED with the previous tail's address and the current timeout and clock; input failure is the only failure |
| Registry.Lookup | app/src/main/kotlin/ar/edu/austral/inf/sd/ApiServicesImpl.kt:130-134 | a null or unknown uuid finds nothing; otherwise the found position holds that uuid and no earlier position does, as `find` returns the first match |
| Registry.UnregisterNode | app/src/main/kotlin/ar/edu/austral/inf/sd/ApiServicesImpl.kt:129-162 | unknown uuid gives NotFound and a wrong salt BadRequest, with no call and no change; a relink call is made only for an entry that is not last, to entry index+1's address with entry index-1's credentials; a failed relink or index 0 leaves everything unchanged; success removes exactly the matched entry |
| Registry.Reconfigure | app/src/main/kotlin/ar/edu/austral/inf/sd/ApiServicesImpl.kt:164-180 | NotFound/BadRequest exactly as on leave, with no change; length, order, every other entry and the matched entry's salt, uuid and timeout are kept; success exactly when authorised with all three values present, and then only address and timestamp change; a missing host writes nothing, a missing port leaves the host written, a missing timestamp leaves host and port written, each ending in NullValue |
| Registry.ControllerUuidJoinDuplicates | app/src/main/kotlin/ar/edu/austral/inf/sd/ApiServicesImpl.kt:80-88 | as written, a first join that reuses the controller's uuid is answered CREATED and leaves two entries with the same uuid |
| Registry.RegisterNodeChecked | app/src/main/kotlin/ar/edu/austral/inf/sd/ApiServicesImpl.kt:71-88 | corrected join: uuids stay unique whatever the request; it is the code as written except on a first join with the controller's uuid, which changes nothing |
| Registry.NegativeRelinkBreaksBound | app/src/main/kotlin/ar/edu/austral/inf/sd/ApiServicesImpl.kt:177 | as written, a successful relink with a negative timestamp leaves an entry outside its `@Min(0)` bound |
| Registry.ReconfigureChecked | app/src/main/kotlin/ar/edu/austral/inf/sd/ApiServicesImpl.kt:164-180 | corrected relink: entries keep their `@Min(0)` bounds and unique uuids whatever the request; a negative timestamp is rejected with nothing written, any other request is handled as written |
| Relay.NewResponse | app/src/main/kotlin/ar/edu/austral/inf/sd/ApiServicesImpl.kt:242-251 | the in-flight record keeps the salted digest, length and content type of what is sent, with placeholders for the received side and an empty chain, and validating the unaltered payload against it gives "Success" |
| Relay.ValidatePlayResult | app/src/main/kotlin/ar/edu/austral/inf/sd/ApiServicesImpl.kt:269-277 | the result is "Success" iff the received digest equals the original one, else "Failure"; received fields and chain are copied in and the original fields kept |
| Relay.SendRelayMessage | app/src/main/kotlin/ar/edu/austral/inf/sd/ApiServicesImpl.kt:203-235 | a timestamp below the clock is rejected with BadRequest, in both directions, with no call and no change; past the gate, a content type the media-type parse rejects fails with no call and no change; a call is made exactly when both pass, the relay to the given downstream, and on failure one fallback goes to the register host and the request ends in an error with the state unchanged; only a delivered relay sets the clock, to the timestamp, so the clock never decreases |
| Relay.RelayMessage | app/src/main/kotlin/ar/edu/austral/inf/sd/ApiServicesImpl.kt:94-114 | a success answers with this hop's own signature; a forward sends the incoming chain with this hop's signature appended last, to the downstream address, with the header's timestamp and the part's content type ("nada" when absent), is gated by the clock and by the media-type parse, and succeeds exactly when delivered, as the only call; an undelivered forward is followed by the same post to the register host and ends in ServiceUnavailable or TransportError as that fallback decides; a missing timestamp gives NullValue; the terminal branch fails with BadRequest when nothing waits and otherwise empties the slot, records the result of `validatePlayResult` ("Success" or "Failure") and releases the latch, keeping every other field; failures change nothing and the registry is never touched |
| Relay.AppendedSignatureIsReply | app/src/main/kotlin/ar/edu/austral/inf/sd/ApiServicesImpl.kt:98-113 | the signature a forwarding hop appends to the chain is the one it answers its caller with |
| Relay.FallbackToSameAddressMayBeDelivered | app/src/main/kotlin/ar/edu/austral/inf/sd/ApiServicesImpl.kt:226-231 | when the downstream is the register host itself, the fallback repeats the very same post, and it can still be delivered, ending in ServiceUnavailable |
| Relay.UntypedPartNeverForwarded | app/src/main/kotlin/ar/edu/austral/inf/sd/ApiServicesImpl.kt:96-100 | a message part without a content type is signed as "nada", which the media-type parse at line 209 rejects, so a forwarding hop never sends it on and changes nothing |
| Relay.StartSend | app/src/main/kotlin/ar/edu/austral/inf/sd/ApiServicesImpl.kt:116-123 | the registry gains a self-entry only when empty; the waiting slot holds the new payload's record even if the relay fails; the gate never rejects the node's own clock, so a call is made exactly when the content type parses, and it goes to the newest entry with an empty chain and the node's clock; success exactly when that call is delivered, and then it is the only call; otherwise the same post goes to the register host and the request ends in ServiceUnavailable or TransportError as that fallback decides; nothing but the registry and the waiting slot changes, the clock included |
| Relay.FinishSend | app/src/main/kotlin/ar/edu/austral/inf/sd/ApiServicesImpl.kt:124-126 | before the latch is released the send keeps waiting; afterwards it re-arms the latch and returns the completed response |
| Ring.ApplyKeepsClockAndIdentity | app/src/main/kotlin/ar/edu/austral/inf/sd/ApiServicesImpl.kt:234 | no request moves the clock backwards or alters the instance's uuid, salt or configuration |
| Ring.ClockNeverDecreases | app/src/main/kotlin/ar/edu/austral/inf/sd/ApiServicesImpl.kt:203-234 | over any run of requests the causal clock never decreases |
| Ring.JoinKeepsInv | app/src/main/kotlin/ar/edu/austral/inf/sd/ApiServicesImpl.kt:80-88 | every join, through the corrected `RegisterNodeChecked`, keeps uuids unique and entries within their `@Min(0)` bounds |
| Ring.RelinkKeepsInv | app/src/main/kotlin/ar/edu/austral/inf/sd/ApiServicesImpl.kt:175-177 | every relink, through the corrected `ReconfigureChecked`, keeps the registry invariant |
| Ring.ApplyKeepsInv | app/src/main/kotlin/ar/edu/austral/inf/sd/server/model/Node.kt:9-12 | every request, with joins and relinks through the corrected `RegisterNodeChecked` and `ReconfigureChecked`, keeps unique uuids, non-negative timeouts and timestamps, and a non-negative clock |
| Ring.RunKeepsInv | app/src/main/kotlin/ar/edu/austral/inf/sd/ApiServicesImpl.kt:53 | over any run of requests, with joins and relinks through the corrected members, the registry keeps unique uuids and well-formed entries (the code as written does not, see "## Findings") |
| Ring.JoinStep | app/src/main/kotlin/ar/edu/austral/inf/sd/ApiServicesImpl.kt:80-91 | a join of an absent uuid appends its entry and answers CREATED with the previous tail's address |
| Ring.JoinOrder | app/src/main/kotlin/ar/edu/austral/inf/sd/ApiServicesImpl.kt:80-88 | from an empty registry, distinct joins leave the controller entry first and the joiners after it in join order, changing nothing else |
| Ring.JoinAnswers | app/src/main/kotlin/ar/edu/austral/inf/sd/ApiServicesImpl.kt:90-91 | the k-th joiner is answered CREATED with entry k-1's address: the controller's for the first, the previous joiner's for the rest |
| Ring.ReplayAfterJoin | app/src/main/kotlin/ar/edu/austral/inf/sd/ApiServicesImpl.kt:71-78 | re-joining right after a join leaves the registry unchanged; with the same salt it is ACCEPTED with the joiner's own stored address and the join's timeout and timestamp, with another salt it is UNAUTHORIZED |
| Ring.FreshUuidFoundLast | app/src/main/kotlin/ar/edu/austral/inf/sd/ApiServicesImpl.kt:71 | after appending an entry with a new uuid, looking that uuid up finds the new last entry |
| Ring.LeaveUndoesJoin | app/src/main/kotlin/ar/edu/austral/inf/sd/ApiServicesImpl.kt:139-161 | on a non-empty registry, leaving right after joining makes no relink call and restores the registry exactly |
| Ring.RelinkUndone | app/src/main/kotlin/ar/edu/austral/inf/sd/ApiServicesImpl.kt:165-177 | a relink is undone by relinking the same entry back to its previous address and timestamp |
| Ring.ChainGrowsByHop | app/src/main/kotlin/ar/edu/austral/inf/sd/ApiServicesImpl.kt:98-100 | through k forwarding hops that accept the timestamp and a content type that parses, the chain grows by exactly k signatures, each the hop's `clientSign`, appended in traversal order |
| Ring.RoundTrip | app/src/main/kotlin/ar/edu/austral/inf/sd/ApiServicesImpl.kt:101-107 | at an origin, after a send, a returning message and a collect, the result carries the returned chain and is "Success" exactly when the returned payload's digest equals the sent one's, so an unaltered payload always succeeds |

## Left out

- HTTP and Spring plumbing. This covers `RestTemplate`, multipart and header
  construction (apart from the media-type parse, which is modelled), URL strings, the servlet `currentRequest` and `@Value`
  injection. Outbound posts become `Call` values judged by a `Transport`
  oracle. The request's server name and content types are parameters.
  Configuration is a `Config` record.
- The network's behaviour over time is not modelled. The `Transport` oracle
  decides each post from the post and its attempt number alone, so the same
  post at the same attempt in two different requests has the same outcome.
- `doHash` (SHA-512 and Base64 over a stateful `MessageDigest`) is a `Hasher`
  parameter. The UTF-8 encoding of the payload is folded into it.
- `message.length` counts UTF-16 code units in Kotlin. The model uses the
  number of characters.
- Kotlin `Int` is 32-bit. Ports, timeouts and timestamps are only stored and
  compared, so they are modelled as unbounded integers.
- The blocking handoff in `sendMessage` is not modelled. That handoff is the
  `CountDownLatch` wait and the `MutableStateFlow` slots. `StartSend` covers
  the synchronous part, and `FinishSend` covers what happens once the latch is
  released (`StillWaiting` stands for a wait nobody ends).
- In the running system, the origin's terminal relay runs re-entrantly inside
  its own outbound relay call. `Ring.RoundTrip` runs them one after the
  other. That is sound because the terminal branch never reads or writes the
  clock, and the clock is the only thing written after the outbound call.
- Concurrency and locking between request handlers are not modelled.
  Nothing rejects a second concurrent send.
- `registerToServer` is not modelled. It is startup network I/O and ends in
  `exitProcess`. `nextNode` is simply part of the state.
- Random salt and uuid generation is not modelled. `sendMessage`'s random
  self-entry uuid is the parameter `freshUuid`, and the instance's salt and
  uuid are state fields.
- `println` logging and the unused `timeOuts` field are not modelled.
- Exceptions other than `RestClientException` from the primary relay post
  are not told apart from it.
- Ring.ChainGrowsByHop: assumes a network that delivers every call. It does
  not describe how far a chain gets when a hop in the middle fails.
- Relay.ParsableMediaType: states only the structural rules of
  `MediaType.parseMediaType` (the wildcard, one `/`, non-empty type and
  subtype, a wildcard type needing a wildcard subtype). The token-character
  grammar, whitespace trimming and the parameters after `;` are not modelled,
  so `Relay.SendRelayMessage`, `Relay.RelayMessage` and `Relay.StartSend`
  treat a type that breaks only those rules as parsable.
- The content type of a send request is a parameter assumed present. What a
  send without a `Content-Type` header does is not modelled.

## Findings

| source | as written | input that shows it | evidently intended | confidence | as-written member | corrected member |
|---|---|---|---|---|---|---|
| app/src/main/kotlin/ar/edu/austral/inf/sd/ApiServicesImpl.kt:71-88 | the uuid lookup runs before the controller entry is synthesised, so a first join is checked against an empty list | a first join on an empty registry whose uuid is the controller's own, with valid host, port, salt and name | uuids in the registry stay unique, the controller entry included | not executed | Registry.ControllerUuidJoinDuplicates | Registry.RegisterNodeChecked |
| app/src/main/kotlin/ar/edu/austral/inf/sd/ApiServicesImpl.kt:177 | the relink timestamp is stored unchecked into a field declared `@Min(0)` at server/model/Node.kt:10 | an authorised relink with a host, a port and timestamp -1 | every registry entry keeps a non-negative timestamp | not executed | Registry.NegativeRelinkBreaksBound | Registry.ReconfigureChecked |
