/** Properties over sequences of requests: the registry invariant and the clock
    survive any run, the k-th joiner is pointed at the (k-1)-th entry, replays,
    leaves and relinks undo or repeat what they should, a chain of hops grows by
    one signature per hop, and a payload that comes back intact validates. */
module Ring {
  import opened Wrappers
  import opened NodeModel
  import opened ServiceState
  import opened Registry
  import opened Relay

  /** One inbound request to a service instance, with its nullable arguments. */
  datatype Request =
    | Join(requestHost: string, host: Option<string>, port: Option<int>, uuid: Option<Uuid>,
           salt: Option<string>, name: Option<string>)
    | Leave(uuid: Option<Uuid>, salt: Option<string>)
    | Relink(uuid: Option<Uuid>, salt: Option<string>, nextHost: Option<string>,
             nextPort: Option<int>, timestamp: Option<int>)
    | Hop(message: string, signatures: seq<Signature>, timestamp: Option<int>, partContentType: Option<string>)
    | Send(body: string, requestHost: string, contentType: string, freshUuid: Uuid)
    | Collect

  /** The state after one request. Joins and relinks go through the corrected
      `RegisterNodeChecked` and `ReconfigureChecked`. */
  function Apply(s: NodeState, req: Request, hash: Hasher, net: Transport): NodeState {
    match req
    case Join(rh, host, port, uuid, salt, name) => RegisterNodeChecked(s, rh, host, port, uuid, salt, name).post
    case Leave(uuid, salt) => UnregisterNode(s, uuid, salt, net).post
    case Relink(uuid, salt, h, p, t) => ReconfigureChecked(s, uuid, salt, h, p, t).post
    case Hop(m, sigs, t, ct) => RelayMessage(s, m, sigs, t, ct, hash, net).post
    case Send(body, rh, ct, freshId) => StartSend(s, body, rh, ct, freshId, hash, net).post
    case Collect => FinishSend(s).post
  }

  /** The state after a sequence of requests, handled one at a time. */
  function Run(s: NodeState, reqs: seq<Request>, hash: Hasher, net: Transport): NodeState
    decreases |reqs|
  {
    if |reqs| == 0 then s else Run(Apply(s, reqs[0], hash, net), reqs[1..], hash, net)
  }

  /** The registry keeps unique uuids and `@Min(0)` fields, the clock is
      non-negative and the configured timeout too. */
  predicate Inv(s: NodeState) {
    UniqueUuids(s.nodes) && AllWellFormed(s.nodes) && s.xGameTimestamp >= 0 && s.config.timeout >= 0
  }

  /** One request never moves the clock backwards, and never touches the
      identity or the configuration. */
  lemma ApplyKeepsClockAndIdentity(s: NodeState, req: Request, hash: Hasher, net: Transport)
    ensures Apply(s, req, hash, net).xGameTimestamp >= s.xGameTimestamp
    ensures Apply(s, req, hash, net).uuid == s.uuid && Apply(s, req, hash, net).salt == s.salt
    ensures Apply(s, req, hash, net).config == s.config
  {
  }

  /** Over any run of requests the causal clock never decreases. */
  lemma {:induction false} ClockNeverDecreases(s: NodeState, reqs: seq<Request>, hash: Hasher, net: Transport)
    ensures Run(s, reqs, hash, net).xGameTimestamp >= s.xGameTimestamp
    decreases |reqs|
  {
    if |reqs| > 0 {
      ApplyKeepsClockAndIdentity(s, reqs[0], hash, net);
      ClockNeverDecreases(Apply(s, reqs[0], hash, net), reqs[1..], hash, net);
    }
  }

  /** Any join keeps the registry invariant. */
  lemma JoinKeepsInv(s: NodeState, rh: string, host: Option<string>, port: Option<int>, uuid: Option<Uuid>,
                     salt: Option<string>, name: Option<string>)
    requires Inv(s)
    ensures Inv(RegisterNodeChecked(s, rh, host, port, uuid, salt, name).post)
  {
  }

  /** Any relink keeps the registry invariant. */
  lemma RelinkKeepsInv(s: NodeState, uuid: Option<Uuid>, salt: Option<string>, h: Option<string>,
                       p: Option<int>, t: Option<int>)
    requires Inv(s)
    ensures Inv(ReconfigureChecked(s, uuid, salt, h, p, t).post)
  {
  }

  /** Every request keeps the invariant. */
  lemma ApplyKeepsInv(s: NodeState, req: Request, hash: Hasher, net: Transport)
    requires Inv(s)
    ensures Inv(Apply(s, req, hash, net))
  {
    match req
    case Join(rh, host, port, uuid, salt, name) =>
      JoinKeepsInv(s, rh, host, port, uuid, salt, name);
    case Leave(uuid, salt) =>
      var r := UnregisterNode(s, uuid, salt, net);
      if r.out.Success? {
        RemoveAtKeepsUnique(s.nodes, Lookup(s, uuid).value);
      }
    case Relink(uuid, salt, h, p, t) =>
      RelinkKeepsInv(s, uuid, salt, h, p, t);
    case Hop(m, sigs, t, ct) =>
    case Send(body, rh, ct, freshId) =>
    case Collect =>
  }

  /** Over any run of requests the registry keeps unique uuids and well-formed
      entries. */
  lemma {:induction false} RunKeepsInv(s: NodeState, reqs: seq<Request>, hash: Hasher, net: Transport)
    requires Inv(s)
    ensures Inv(Run(s, reqs, hash, net))
    decreases |reqs|
  {
    if |reqs| > 0 {
      ApplyKeepsInv(s, reqs[0], hash, net);
      RunKeepsInv(Apply(s, reqs[0], hash, net), reqs[1..], hash, net);
    }
  }

  /** A well-formed join request. */
  datatype Joiner = Joiner(host: string, port: int, uuid: Uuid, salt: string, name: string)

  predicate ValidJoiner(j: Joiner) {
    |j.host| > 0 && |j.salt| > 0 && |j.name| > 0
  }

  /** The registry and the answers after a sequence of joins. */
  datatype Joined = Joined(state: NodeState, answers: seq<Result<Registration, ApiError>>)

  function JoinAll(s: NodeState, requestHost: string, js: seq<Joiner>): Joined
    decreases |js|
  {
    if |js| == 0 then Joined(s, [])
    else
      var before := JoinAll(s, requestHost, js[..|js| - 1]);
      var j := js[|js| - 1];
      var r := RegisterNode(before.state, requestHost, Some(j.host), Some(j.port), Some(j.uuid), Some(j.salt), Some(j.name));
      Joined(r.post, before.answers + [r.out])
  }

  /** The address the k-th joiner (counting from 0) is told to forward to: the
      controller's own for the first, the previous joiner's for every later one. */
  function Predecessor(s: NodeState, requestHost: string, js: seq<Joiner>, k: nat): Address
    requires k < |js|
  {
    if k == 0 then Address(requestHost, s.config.port) else Address(js[k - 1].host, js[k - 1].port)
  }

  /** The entry a joiner gets when it joins a controller in state `s`. */
  function EntryOf(s: NodeState, j: Joiner): Node {
    Node(j.host, j.port, s.config.timeout, s.xGameTimestamp, j.salt, j.uuid)
  }

  /** One join of a uuid the registry does not hold. */
  lemma JoinStep(t: NodeState, rh: string, j: Joiner)
    requires ValidJoiner(j)
    requires forall i :: 0 <= i < |t.nodes| ==> t.nodes[i].uuid != j.uuid
    ensures var base := JoinBase(t, rh);
            RegisterNode(t, rh, Some(j.host), Some(j.port), Some(j.uuid), Some(j.salt), Some(j.name))
            == Step(Success(Registration(Created, Some(RegisterResponse(
                      base[|base| - 1].nextHost, base[|base| - 1].nextPort, t.config.timeout, t.xGameTimestamp)))),
                    t.(nodes := base + [EntryOf(t, j)]), [])
  {
  }

  /** Starting from an empty registry, a sequence of distinct joins leaves the
      synthesised controller entry first and the joiners after it, in join
      order, and changes nothing but the registry. */
  lemma {:induction false} JoinOrder(s: NodeState, requestHost: string, js: seq<Joiner>)
    requires |s.nodes| == 0
    requires forall k :: 0 <= k < |js| ==> ValidJoiner(js[k]) && js[k].uuid != s.uuid
    requires forall a, b :: 0 <= a < b < |js| ==> js[a].uuid != js[b].uuid
    ensures var res := JoinAll(s, requestHost, js);
            && res.state == s.(nodes := res.state.nodes)
            && |res.answers| == |js|
            && (|js| == 0 ==> res.state.nodes == [])
            && (|js| > 0 ==>
                  && |res.state.nodes| == |js| + 1
                  && res.state.nodes[0] == ControllerEntry(s, requestHost))
            && (forall k :: 0 <= k < |js| ==> res.state.nodes[k + 1] == EntryOf(s, js[k]))
    decreases |js|
  {
    if |js| > 0 {
      var n := |js| - 1;
      var prefix := js[..n];
      assert forall k :: 0 <= k < n ==> prefix[k] == js[k];
      JoinOrder(s, requestHost, prefix);
      var t := JoinAll(s, requestHost, prefix).state;
      var j := js[n];
      forall i | 0 <= i < |t.nodes|
        ensures t.nodes[i].uuid != j.uuid
      {
        if i > 0 {
          assert t.nodes[i] == EntryOf(s, prefix[i - 1]);
        }
      }
      JoinStep(t, requestHost, j);
      var base := JoinBase(t, requestHost);
      var nodes := JoinAll(s, requestHost, js).state.nodes;
      assert nodes == base + [EntryOf(s, j)];
      forall k | 0 <= k < n
        ensures nodes[k + 1] == EntryOf(s, js[k])
      {
        assert nodes[k + 1] == base[k + 1] == t.nodes[k + 1];
      }
      if n > 0 {
        assert nodes[0] == t.nodes[0];
      }
    }
  }

  /** Over the same joins, each joiner is answered CREATED with its
      predecessor's address: the controller's for the first joiner, the
      previous joiner's for every later one. */
  lemma {:induction false} JoinAnswers(s: NodeState, requestHost: string, js: seq<Joiner>)
    requires |s.nodes| == 0
    requires forall k :: 0 <= k < |js| ==> ValidJoiner(js[k]) && js[k].uuid != s.uuid
    requires forall a, b :: 0 <= a < b < |js| ==> js[a].uuid != js[b].uuid
    ensures var res := JoinAll(s, requestHost, js);
            && |res.answers| == |js|
            && (forall k :: 0 <= k < |js| ==>
                  res.answers[k] == Success(Registration(Created, Some(RegisterResponse(
                    Predecessor(s, requestHost, js, k).host, Predecessor(s, requestHost, js, k).port,
                    s.config.timeout, s.xGameTimestamp)))))
    decreases |js|
  {
    if |js| > 0 {
      var n := |js| - 1;
      var prefix := js[..n];
      assert forall k :: 0 <= k < n ==> prefix[k] == js[k];
      JoinAnswers(s, requestHost, prefix);
      JoinOrder(s, requestHost, prefix);
      var before := JoinAll(s, requestHost, prefix);
      var t := before.state;
      var j := js[n];
      forall i | 0 <= i < |t.nodes|
        ensures t.nodes[i].uuid != j.uuid
      {
        if i > 0 {
          assert t.nodes[i] == EntryOf(s, prefix[i - 1]);
        }
      }
      var answers := JoinAll(s, requestHost, js).answers;
      var p := Predecessor(s, requestHost, js, n);
      assert answers[n] == Success(Registration(Created, Some(RegisterResponse(
               p.host, p.port, s.config.timeout, s.xGameTimestamp)))) by {
        JoinStep(t, requestHost, j);
        var base := JoinBase(t, requestHost);
        if n > 0 {
          assert base[|base| - 1] == t.nodes[n] == EntryOf(s, js[n - 1]);
        }
      }
      forall k | 0 <= k < n
        ensures answers[k] == before.answers[k]
        ensures Predecessor(s, requestHost, js, k) == Predecessor(s, requestHost, prefix, k)
      {
      }
    }
  }

  /** Re-joining right after a fresh join does not grow the registry: with the
      same salt it is ACCEPTED, carrying the timeout and timestamp of the
      CREATED answer but the joiner's own stored address rather than its
      predecessor's; with any other salt it is UNAUTHORIZED. */
  lemma ReplayAfterJoin(s: NodeState, rh: string, host: string, port: int, uuid: Uuid, salt: string,
                        name: string, salt': string)
    requires ValidJoin(Some(host), Some(port), Some(uuid), Some(salt), Some(name)) && |salt'| > 0
    requires FindIndex(s.nodes, uuid).None? && uuid != s.uuid
    ensures var first := RegisterNode(s, rh, Some(host), Some(port), Some(uuid), Some(salt), Some(name));
            var again := RegisterNode(first.post, rh, Some(host), Some(port), Some(uuid), Some(salt'), Some(name));
            && first.out.Success? && first.out.value.status == Created
            && again.post == first.post
            && (salt' == salt ==>
                  again.out == Success(Registration(Accepted, Some(RegisterResponse(
                    host, port, first.out.value.body.value.timeout, first.out.value.body.value.xGameTimestamp)))))
            && (salt' != salt ==> again.out == Success(Registration(Unauthorized, None)))
  {
  }

  /** Appending an entry with a uuid not yet present makes a lookup of that uuid
      find it at the end. */
  lemma FreshUuidFoundLast(base: seq<Node>, entry: Node)
    requires forall i :: 0 <= i < |base| ==> base[i].uuid != entry.uuid
    ensures FindIndex(base + [entry], entry.uuid) == Some(|base|)
  {
    var nodes := base + [entry];
    forall i | 0 <= i < |base|
      ensures nodes[i].uuid != entry.uuid
    {
      assert nodes[i] == base[i];
    }
    assert nodes[|base|] == entry;
    var r := FindIndex(nodes, entry.uuid);
    assert r.Some?;
  }

  /** The leave that follows a fresh join on a non-empty registry makes no
      relink call and restores the registry exactly. */
  lemma LeaveUndoesJoin(s: NodeState, rh: string, host: string, port: int, uuid: Uuid, salt: string, name: string,
                        net: Transport)
    requires ValidJoin(Some(host), Some(port), Some(uuid), Some(salt), Some(name))
    requires FindIndex(s.nodes, uuid).None? && |s.nodes| > 0
    ensures var joined := RegisterNode(s, rh, Some(host), Some(port), Some(uuid), Some(salt), Some(name)).post;
            var left := UnregisterNode(joined, Some(uuid), Some(salt), net);
            left == Step(Success(()), s, [])
  {
    var joined := RegisterNode(s, rh, Some(host), Some(port), Some(uuid), Some(salt), Some(name)).post;
    var entry := Node(host, port, s.config.timeout, s.xGameTimestamp, salt, uuid);
    assert joined == s.(nodes := s.nodes + [entry]);
    FreshUuidFoundLast(s.nodes, entry);
    assert RemoveAt(joined.nodes, |s.nodes|) == s.nodes;
  }

  /** A successful relink is undone by a second relink that writes back the
      entry's previous address and timestamp. */
  lemma RelinkUndone(s: NodeState, uuid: Uuid, salt: string, h: string, p: int, t: int)
    requires Reconfigure(s, Some(uuid), Some(salt), Some(h), Some(p), Some(t)).out.Success?
    ensures var i := Lookup(s, Some(uuid)).value;
            var once := Reconfigure(s, Some(uuid), Some(salt), Some(h), Some(p), Some(t));
            var back := Reconfigure(once.post, Some(uuid), Some(salt), Some(s.nodes[i].nextHost),
                                    Some(s.nodes[i].nextPort), Some(s.nodes[i].xGameTimestamp));
            back == Step(Success(()), s, [])
  {
  }

  /** The signatures a sequence of hops adds, in traversal order. */
  function HopSignatures(hops: seq<NodeState>, message: string, contentType: string, hash: Hasher): (sigs: seq<Signature>)
    ensures |sigs| == |hops|
    decreases |hops|
  {
    if |hops| == 0 then []
    else [ClientSign(hops[0], message, contentType, hash)] + HopSignatures(hops[1..], message, contentType, hash)
  }

  /** The chain that leaves the last of `hops` when the message enters the first
      with `chain`, each hop forwarding what it relays to the next; None when a
      hop fails. */
  function ChainAfter(hops: seq<NodeState>, message: string, chain: seq<Signature>, timestamp: int,
                      contentType: string, hash: Hasher, net: Transport): Option<seq<Signature>>
    decreases |hops|
  {
    if |hops| == 0 then Some(chain)
    else
      var r := RelayMessage(hops[0], message, chain, Some(timestamp), Some(contentType), hash, net);
      if r.out.Failure? || r.calls == [] || !r.calls[0].RelayCall? then None
      else ChainAfter(hops[1..], message, r.calls[0].signatures, timestamp, contentType, hash, net)
  }

  /** A message with a well-formed content type relayed through k forwarding
      hops whose clocks do not exceed its timestamp, over a network that delivers, arrives with exactly k more
      signatures, appended in traversal order. */
  lemma {:induction false} ChainGrowsByHop(hops: seq<NodeState>, message: string, chain: seq<Signature>,
                                           timestamp: int, contentType: string, hash: Hasher, net: Transport)
    requires forall i :: 0 <= i < |hops| ==> hops[i].nextNode.Some? && hops[i].xGameTimestamp <= timestamp
    requires ParsableMediaType(contentType)
    requires forall c, k :: net(c, k)
    ensures ChainAfter(hops, message, chain, timestamp, contentType, hash, net)
            == Some(chain + HopSignatures(hops, message, contentType, hash))
    ensures |ChainAfter(hops, message, chain, timestamp, contentType, hash, net).value| == |chain| + |hops|
    decreases |hops|
  {
    if |hops| > 0 {
      var r := RelayMessage(hops[0], message, chain, Some(timestamp), Some(contentType), hash, net);
      assert r.calls != [] && r.calls[0].RelayCall?;
      var next := r.calls[0].signatures;
      assert next == chain + [ClientSign(hops[0], message, contentType, hash)];
      assert ChainAfter(hops, message, chain, timestamp, contentType, hash, net)
          == ChainAfter(hops[1..], message, next, timestamp, contentType, hash, net);
      ChainGrowsByHop(hops[1..], message, next, timestamp, contentType, hash, net);
      assert HopSignatures(hops, message, contentType, hash)
          == [ClientSign(hops[0], message, contentType, hash)] + HopSignatures(hops[1..], message, contentType, hash);
      assert chain + HopSignatures(hops, message, contentType, hash)
          == next + HopSignatures(hops[1..], message, contentType, hash);
    } else {
      assert chain + HopSignatures(hops, message, contentType, hash) == chain;
    }
  }

  /** At an origin (no downstream of its own): start a send, let the message come
      back with some payload and chain, then collect. The collected result
      carries the chain that came back, and reports success exactly when the
      digest of what came back equals the digest of what was sent; an unaltered
      payload always succeeds. */
  lemma RoundTrip(s: NodeState, body: string, rh: string, contentType: string, freshId: Uuid, hash: Hasher,
                  net: Transport, received: string, chain: seq<Signature>, timestamp: Option<int>,
                  partContentType: Option<string>)
    requires s.nextNode.None?
    requires StartSend(s, body, rh, contentType, freshId, hash, net).out.Success?
    ensures var sent := StartSend(s, body, rh, contentType, freshId, hash, net).post;
            var back := RelayMessage(sent, received, chain, timestamp, partContentType, hash, net);
            var done := FinishSend(back.post);
            && back.out.Success?
            && done.out.Success?
            && done.out.value.signatures == chain
            && done.out.value.originalLength == |body|
            && done.out.value.receivedLength == |received|
            && (done.out.value.contentResult == "Success" <==> hash(s.salt, received) == hash(s.salt, body))
            && (received == body ==> done.out.value.contentResult == "Success")
            && done.post.waiting.None? && !done.post.resultReady
  {
  }
}
