/** The relay step: the causal-clock gate and clock advance of
    `sendRelayMessage`, signing and forwarding in `relayMessage`, its terminal
    consume-and-validate branch, and the synchronous part of `sendMessage`. */
module Relay {
  import opened Wrappers
  import opened NodeModel
  import opened ServiceState

  /** `clientSign`: this node's signature over a payload. */
  function ClientSign(s: NodeState, message: string, contentType: string, hash: Hasher): (sig: Signature)
    ensures sig.name == s.config.name && sig.hash == hash(s.salt, message)
    ensures sig.contentType == contentType && sig.contentLength == |message|
  {
    Signature(s.config.name, hash(s.salt, message), contentType, |message|)
  }

  /** `newResponse`: the in-flight record of a payload about to be sent. Nothing
      has come back yet, so the received side holds placeholders. */
  function NewResponse(s: NodeState, body: string, contentType: string, hash: Hasher): (p: PlayResponse)
    ensures p.originalHash == hash(s.salt, body) && p.originalLength == |body|
    ensures p.originalContentType == contentType
    ensures p.contentResult == "Unknown" && p.signatures == []
    ensures p.receivedHash == "Unknown" && p.receivedLength == -1 && p.receivedContentType == "N/A"
    // the record validates its own payload, unaltered, as a success
    ensures ValidatePlayResult(p, hash(s.salt, body), |body|, contentType, []).contentResult == "Success"
  {
    PlayResponse("Unknown", contentType, |body|, hash(s.salt, body), "Unknown", -1, "N/A", [])
  }

  /** `validatePlayResult`: record what came back and compare digests. */
  function ValidatePlayResult(current: PlayResponse, receivedHash: string, receivedLength: int,
                              receivedContentType: string, signatures: seq<Signature>): (p: PlayResponse)
    ensures p.contentResult == "Success" || p.contentResult == "Failure"
    ensures p.contentResult == "Success" <==> receivedHash == current.originalHash
    ensures p.receivedHash == receivedHash && p.receivedLength == receivedLength
    ensures p.receivedContentType == receivedContentType && p.signatures == signatures
    // the original side is kept
    ensures p.originalHash == current.originalHash && p.originalLength == current.originalLength
    ensures p.originalContentType == current.originalContentType
  {
    current.(contentResult := if receivedHash == current.originalHash then "Success" else "Failure",
             receivedHash := receivedHash,
             receivedLength := receivedLength,
             receivedContentType := receivedContentType,
             signatures := signatures)
  }

  /** Position of the first `c` in `t`, or `|t|` when `t` has none. */
  function CharIndex(t: string, c: char): (k: nat)
    ensures k <= |t|
    ensures k < |t| ==> t[k] == c
    ensures forall j :: 0 <= j < k ==> t[j] != c
  {
    if |t| == 0 then 0
    else if t[0] == c then 0
    else 1 + CharIndex(t[1..], c)
  }

  /** The structural rules `MediaType.parseMediaType` applies to the part of a
      content type before its parameters: it is the wildcard `*`, or a type and a
      subtype, both non-empty, separated by the only `/`, where a wildcard type
      needs a wildcard subtype. Anything else (an empty string, a text without a
      `/` such as the default "nada") makes the parse throw. */
  predicate ParsableMediaType(contentType: string) {
    var main := contentType[..CharIndex(contentType, ';')];
    var k := CharIndex(main, '/');
    main == "*" ||
    (0 < k < |main| - 1 && CharIndex(main[k + 1..], '/') == |main| - k - 1 &&
     (main[..k] == "*" ==> main[k + 1..] == "*"))
  }

  /** `sendRelayMessage`: reject a timestamp below the clock; then parse the
      content type for the message part's header, which throws before anything
      is sent when it is malformed; otherwise post to `relayNode`, and when that
      fails post the same request to the register host and end in an error
      either way. Only a delivered relay advances the clock, to the relayed
      timestamp. */
  function SendRelayMessage(s: NodeState, body: string, contentType: string, relayNode: RegisterResponse,
                            signatures: seq<Signature>, timestamp: int, net: Transport): (r: Step<()>)
    // the causal gate, both directions
    ensures r.out == Failure(BadRequest("Invalid timestamp")) <==> timestamp < s.xGameTimestamp
    ensures timestamp < s.xGameTimestamp ==> r.post == s && r.calls == []
    // past the gate, a malformed content type fails before any call
    ensures timestamp >= s.xGameTimestamp && !ParsableMediaType(contentType) ==>
              r == Step(Failure(InvalidMediaType), s, [])
    // a call is made exactly when the gate and the parse pass; the first is the
    // relay to the given downstream
    ensures r.calls != [] <==> timestamp >= s.xGameTimestamp && ParsableMediaType(contentType)
    ensures r.calls != [] ==>
              r.calls[0] == RelayCall(Address(relayNode.nextHost, relayNode.nextPort), body, contentType, signatures, timestamp)
    // delivered: the clock moves to the timestamp and nothing else changes
    ensures r.out.Success? <==> r.calls != [] && net(r.calls[0], 0)
    ensures r.out.Success? ==> r.post == s.(xGameTimestamp := timestamp) && |r.calls| == 1
    // not delivered: one fallback to the register host, an error, and no change
    ensures r.calls != [] && !net(r.calls[0], 0) ==>
              |r.calls| == 2 &&
              r.calls[1] == RelayCall(Address(s.config.registerHost, s.config.registerPort), body, contentType, signatures, timestamp) &&
              r.out == Failure(if net(r.calls[1], 1) then ServiceUnavailable else TransportError)
    ensures r.out.Failure? ==> r.post == s
    // the clock never decreases
    ensures r.post.xGameTimestamp >= s.xGameTimestamp
  {
    if timestamp < s.xGameTimestamp then
      Step(Failure(BadRequest("Invalid timestamp")), s, [])
    else if !ParsableMediaType(contentType) then
      Step(Failure(InvalidMediaType), s, [])
    else
      var request := RelayCall(Address(relayNode.nextHost, relayNode.nextPort), body, contentType, signatures, timestamp);
      if net(request, 0) then
        Step(Success(()), s.(xGameTimestamp := timestamp), [request])
      else
        var fallback := RelayCall(Address(s.config.registerHost, s.config.registerPort), body, contentType, signatures, timestamp);
        if net(fallback, 1) then
          Step(Failure(ServiceUnavailable), s, [request, fallback])
        else
          Step(Failure(TransportError), s, [request, fallback])
  }

  /** A fallback is a second post, so it can be delivered even when it goes to
      the very address the first post failed to reach (as for the first joiner,
      whose downstream is the controller itself). */
  lemma FallbackToSameAddressMayBeDelivered(s: NodeState, body: string, contentType: string,
                                            signatures: seq<Signature>, timestamp: int)
    requires timestamp >= s.xGameTimestamp && ParsableMediaType(contentType)
    ensures var toRegister := RegisterResponse(s.config.registerHost, s.config.registerPort, 0, 0);
            var r := SendRelayMessage(s, body, contentType, toRegister, signatures, timestamp, (c: Call, k: nat) => k == 1);
            r.calls[0] == r.calls[1] && r.out == Failure(ServiceUnavailable)
  {
  }

  /** `relayMessage`. `timestamp` is the X-Game-Timestamp header and
      `partContentType` the content type of the message part, both possibly
      absent. */
  function RelayMessage(s: NodeState, message: string, signatures: seq<Signature>, timestamp: Option<int>,
                        partContentType: Option<string>, hash: Hasher, net: Transport): (r: Step<Signature>)
    // whatever the branch, a success answers with this node's own signature
    ensures r.out.Success? ==>
              r.out.value == Signature(s.config.name, hash(s.salt, message), partContentType.GetOr("nada"), |message|)
    // any failure leaves the state as it was; the clock never decreases
    ensures r.out.Failure? ==> r.post == s
    ensures r.post.xGameTimestamp >= s.xGameTimestamp
    ensures r.post.nodes == s.nodes
    // forwarding: the chain sent on is the incoming one plus this node's signature last
    ensures s.nextNode.Some? && r.calls != [] ==>
              && timestamp.Some? && timestamp.value >= s.xGameTimestamp
              && r.calls[0].RelayCall?
              && r.calls[0].to == Address(s.nextNode.value.nextHost, s.nextNode.value.nextPort)
              && r.calls[0].body == message
              && r.calls[0].signatures
                 == signatures + [Signature(s.config.name, hash(s.salt, message), partContentType.GetOr("nada"), |message|)]
    ensures s.nextNode.Some? && timestamp.Some? && timestamp.value < s.xGameTimestamp ==>
              r.out == Failure(BadRequest("Invalid timestamp"))
    ensures s.nextNode.Some? && r.out.Success? ==>
              timestamp.Some? && r.post == s.(xGameTimestamp := timestamp.value)
    ensures s.nextNode.Some? && timestamp.None? ==> r.out == Failure(NullValue)
    // past the gate, a part content type the header parse rejects (the "nada"
    // default included) stops the forward before any call
    ensures s.nextNode.Some? && timestamp.Some? && timestamp.value >= s.xGameTimestamp
            && !ParsableMediaType(partContentType.GetOr("nada")) ==>
              r == Step(Failure(InvalidMediaType), s, [])
    // otherwise the forward is sent with the header's timestamp and the part's
    // content type, and the request succeeds exactly when it is delivered
    ensures s.nextNode.Some? && timestamp.Some? && timestamp.value >= s.xGameTimestamp
            && ParsableMediaType(partContentType.GetOr("nada")) ==>
              && |r.calls| >= 1 && r.calls[0].RelayCall?
              && r.calls[0].timestamp == timestamp.value
              && r.calls[0].contentType == partContentType.GetOr("nada")
              && (r.out.Success? <==> net(r.calls[0], 0))
    // a delivered forward is the only call; the terminal branch makes none
    ensures r.out.Success? ==> |r.calls| == (if s.nextNode.Some? then 1 else 0)
    // an undelivered forward is followed by the same post to the register host,
    // and the request ends in the error that fallback decides
    ensures s.nextNode.Some? && r.calls != [] && !net(r.calls[0], 0) ==>
              && |r.calls| == 2 && r.calls[0].RelayCall?
              && r.calls[1] == RelayCall(Address(s.config.registerHost, s.config.registerPort), r.calls[0].body,
                                         r.calls[0].contentType, r.calls[0].signatures, r.calls[0].timestamp)
              && r.out == Failure(if net(r.calls[1], 1) then ServiceUnavailable else TransportError)
    // terminal: the waiting message is consumed and validated
    ensures s.nextNode.None? && s.waiting.None? ==> r == Step(Failure(BadRequest("no waiting message")), s, [])
    ensures s.nextNode.None? && s.waiting.Some? ==>
              && r.out.Success? && r.calls == []
              && r.post.waiting.None? && r.post.resultReady
              && r.post.xGameTimestamp == s.xGameTimestamp
              && r.post == s.(waiting := None, response := r.post.response, resultReady := true)
              && r.post.response.Some?
              && r.post.response.value.contentResult in {"Success", "Failure"}
              && (r.post.response.value.contentResult == "Success" <==> hash(s.salt, message) == s.waiting.value.originalHash)
              && r.post.response.value.receivedHash == hash(s.salt, message)
              && r.post.response.value.receivedLength == |message|
              && r.post.response.value.receivedContentType == partContentType.GetOr("nada")
              && r.post.response.value.signatures == signatures
              && r.post.response.value.originalHash == s.waiting.value.originalHash
              && r.post.response.value.originalLength == s.waiting.value.originalLength
              && r.post.response.value.originalContentType == s.waiting.value.originalContentType
  {
    var receivedHash := hash(s.salt, message);
    var receivedContentType := partContentType.GetOr("nada");
    var receivedLength := |message|;
    var own := Signature(s.config.name, receivedHash, receivedContentType, receivedLength);
    if s.nextNode.Some? then
      var updatedSignatures := signatures + [ClientSign(s, message, receivedContentType, hash)];
      if timestamp.None? then
        Step(Failure(NullValue), s, [])
      else
        var sent := SendRelayMessage(s, message, receivedContentType, s.nextNode.value,
                                     updatedSignatures, timestamp.value, net);
        Step(if sent.out.Success? then Success(own) else Failure(sent.out.error), sent.post, sent.calls)
    else if s.waiting.None? then
      Step(Failure(BadRequest("no waiting message")), s, [])
    else
      var response := ValidatePlayResult(s.waiting.value, receivedHash, receivedLength, receivedContentType, signatures);
      Step(Success(own), s.(waiting := None, response := Some(response), resultReady := true), [])
  }

  /** The signature a forwarding hop appends to the chain is the very signature
      it answers its own caller with. */
  lemma AppendedSignatureIsReply(s: NodeState, message: string, signatures: seq<Signature>, timestamp: Option<int>,
                                 partContentType: Option<string>, hash: Hasher, net: Transport)
    requires s.nextNode.Some?
    requires RelayMessage(s, message, signatures, timestamp, partContentType, hash, net).out.Success?
    ensures var r := RelayMessage(s, message, signatures, timestamp, partContentType, hash, net);
            r.calls != [] && r.calls[0].RelayCall? && r.calls[0].signatures == signatures + [r.out.value]
            && r.out.value == ClientSign(s, message, partContentType.GetOr("nada"), hash)
  {
  }

  /** A message part that arrives without a content type is signed as "nada",
      which the header parse rejects: a forwarding hop never sends it on. */
  lemma UntypedPartNeverForwarded(s: NodeState, message: string, signatures: seq<Signature>, timestamp: Option<int>,
                                  hash: Hasher, net: Transport)
    requires s.nextNode.Some?
    ensures var r := RelayMessage(s, message, signatures, timestamp, None, hash, net);
            r.calls == [] && r.out.Failure? && r.post == s
  {
  }

  /** The registry `sendMessage` relays through: the current one, or a single
      self-entry (with a freshly drawn uuid) when it is empty. */
  function SendBase(s: NodeState, requestHost: string, freshUuid: Uuid): (b: seq<Node>)
    ensures |b| > 0
    ensures |s.nodes| > 0 ==> b == s.nodes
    ensures |s.nodes| == 0 ==>
              b == [ControllerEntry(s, requestHost).(uuid := freshUuid)]
  {
    if |s.nodes| == 0 then [ControllerEntry(s, requestHost).(uuid := freshUuid)]
    else s.nodes
  }

  /** The synchronous part of `sendMessage`, up to the wait: make sure the
      registry is non-empty, put the payload's record in the waiting slot (there
      is no check for a message already waiting) and relay it to the newest
      entry with an empty chain and the current clock. */
  function StartSend(s: NodeState, body: string, requestHost: string, contentType: string,
                     freshUuid: Uuid, hash: Hasher, net: Transport): (r: Step<()>)
    // the registry gains a self-entry only when it was empty
    ensures r.post.nodes == SendBase(s, requestHost, freshUuid)
    // the waiting slot holds the new payload's record, even when the relay failed
    ensures r.post.waiting == Some(NewResponse(s, body, contentType, hash))
    // the relay starts at the newest entry, with an empty chain and this node's clock
    // the clock gate never rejects the origin's own timestamp, so a call is made
    // exactly when the content type parses
    ensures r.calls != [] <==> ParsableMediaType(contentType)
    ensures !ParsableMediaType(contentType) ==> r.out == Failure(InvalidMediaType)
    ensures r.calls != [] ==>
              var last := SendBase(s, requestHost, freshUuid)[|SendBase(s, requestHost, freshUuid)| - 1];
              r.calls[0] == RelayCall(AddressOf(last), body, contentType, [], s.xGameTimestamp)
    ensures r.out.Success? <==> r.calls != [] && net(r.calls[0], 0)
    ensures r.out.Success? ==> |r.calls| == 1
    // an undelivered relay is followed by the same post to the register host
    ensures r.calls != [] && !net(r.calls[0], 0) ==>
              && |r.calls| == 2 && r.calls[0].RelayCall?
              && r.calls[1] == RelayCall(Address(s.config.registerHost, s.config.registerPort), r.calls[0].body,
                                         r.calls[0].contentType, r.calls[0].signatures, r.calls[0].timestamp)
              && r.out == Failure(if net(r.calls[1], 1) then ServiceUnavailable else TransportError)
    ensures r.out.Failure? ==> r.out.error in {InvalidMediaType, ServiceUnavailable, TransportError}
    // the clock stays, and nothing but the registry and the waiting slot changes
    ensures r.post == s.(nodes := r.post.nodes, waiting := r.post.waiting)
    ensures r.post.xGameTimestamp == s.xGameTimestamp
    ensures r.post.response == s.response && r.post.resultReady == s.resultReady
  {
    var base := SendBase(s, requestHost, freshUuid);
    var s1 := s.(nodes := base, waiting := Some(NewResponse(s, body, contentType, hash)));
    SendRelayMessage(s1, body, contentType, ToRegisterResponse(base[|base| - 1]), [], s1.xGameTimestamp, net)
  }

  /** The rest of `sendMessage`: once the latch was counted down, re-arm it and
      return the completed response; before that the call would keep waiting. */
  function FinishSend(s: NodeState): (r: Step<PlayResponse>)
    ensures r.calls == []
    ensures !s.resultReady ==> r == Step(Failure(StillWaiting), s, [])
    ensures s.resultReady ==> r.post == s.(resultReady := false)
    ensures r.out.Success? <==> s.resultReady && s.response.Some?
    ensures r.out.Success? ==> r.out.value == s.response.value
  {
    if !s.resultReady then Step(Failure(StillWaiting), s, [])
    else if s.response.None? then Step(Failure(NullValue), s.(resultReady := false), [])
    else Step(Success(s.response.value), s.(resultReady := false), [])
  }
}
