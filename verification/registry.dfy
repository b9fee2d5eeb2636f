/** The controller-side registry: join (`registerNode`), leave
    (`unregisterNode`) and in-place relink (`reconfigure`). */
module Registry {
  import opened Wrappers
  import opened NodeModel
  import opened ServiceState

  /** The HTTP status a registration answers with. */
  datatype RegisterStatus = Created | Accepted | Unauthorized

  /** `ResponseEntity<RegisterResponse>`: a 401 carries no body. */
  datatype Registration = Registration(status: RegisterStatus, body: Option<RegisterResponse>)

  /** Kotlin's `!isNullOrEmpty()`. */
  predicate Present(s: Option<string>) {
    s.Some? && |s.value| > 0
  }

  /** The join arguments pass the input check: host, salt and name present and
      non-empty, port and uuid present. */
  predicate ValidJoin(host: Option<string>, port: Option<int>, uuid: Option<Uuid>,
                      salt: Option<string>, name: Option<string>) {
    Present(host) && port.Some? && uuid.Some? && Present(salt) && Present(name)
  }

  /** The registry a fresh join appends to: the current one, or the synthesised
      controller entry alone when the registry is empty. */
  function JoinBase(s: NodeState, requestHost: string): (b: seq<Node>)
    ensures |b| > 0
    ensures |s.nodes| > 0 ==> b == s.nodes
    ensures |s.nodes| == 0 ==> b == [ControllerEntry(s, requestHost)]
  {
    if |s.nodes| == 0 then [ControllerEntry(s, requestHost)] else s.nodes
  }

  /** `registerNode`. `requestHost` is the server name of the inbound request. */
  function RegisterNode(s: NodeState, requestHost: string, host: Option<string>, port: Option<int>,
                        uuid: Option<Uuid>, salt: Option<string>, name: Option<string>): (r: Step<Registration>)
    // no outbound call, and nothing but the registry ever changes
    ensures r.calls == [] && r.post == s.(nodes := r.post.nodes)
    // invalid input: BadRequest, registry untouched
    ensures !ValidJoin(host, port, uuid, salt, name) ==>
              r.out == Failure(BadRequest("Invalid input parameters")) && r.post == s
    // a known uuid: replay with the stored salt, 401 otherwise; registry untouched
    ensures ValidJoin(host, port, uuid, salt, name) && FindIndex(s.nodes, uuid.value).Some? ==>
              var e := s.nodes[FindIndex(s.nodes, uuid.value).value];
              r.post == s &&
              r.out == Success(
                if e.salt == salt.value
                then Registration(Accepted, Some(RegisterResponse(e.nextHost, e.nextPort, e.timeout, e.xGameTimestamp)))
                else Registration(Unauthorized, None))
    // a fresh uuid: exactly one entry appended after the (possibly synthesised)
    // registry, and the joiner is pointed at the entry that was last before it
    ensures ValidJoin(host, port, uuid, salt, name) && FindIndex(s.nodes, uuid.value).None? ==>
              var base := JoinBase(s, requestHost);
              && r.post.nodes == base + [Node(host.value, port.value, s.config.timeout, s.xGameTimestamp, salt.value, uuid.value)]
              && r.out == Success(Registration(Created, Some(RegisterResponse(
                   base[|base| - 1].nextHost, base[|base| - 1].nextPort, s.config.timeout, s.xGameTimestamp))))
    // the only failure is the input check
    ensures r.out.Failure? <==> !ValidJoin(host, port, uuid, salt, name)
  {
    if !ValidJoin(host, port, uuid, salt, name) then
      Step(Failure(BadRequest("Invalid input parameters")), s, [])
    else
      match FindIndex(s.nodes, uuid.value)
      case Some(i) =>
        var existing := s.nodes[i];
        if existing.salt == salt.value then
          Step(Success(Registration(Accepted, Some(RegisterResponse(
            existing.nextHost, existing.nextPort, existing.timeout, existing.xGameTimestamp)))), s, [])
        else
          Step(Success(Registration(Unauthorized, None)), s, [])
      case None =>
        var base := JoinBase(s, requestHost);
        var nextNode := base[|base| - 1];
        var node := Node(host.value, port.value, s.config.timeout, s.xGameTimestamp, salt.value, uuid.value);
        var response := RegisterResponse(nextNode.nextHost, nextNode.nextPort, s.config.timeout, s.xGameTimestamp);
        Step(Success(Registration(Created, Some(response))), s.(nodes := base + [node]), [])
  }

  /** The reconfigure request `unregisterNode` sends when the leaving entry at
      `index` is not last: it goes to the address of entry `index + 1` and carries
      the uuid, salt and address of entry `index - 1`, with this node's clock. */
  function RelinkCall(s: NodeState, index: nat): Call
    requires 0 < index < |s.nodes| - 1
  {
    var nextNode := s.nodes[index - 1];
    var previousNode := s.nodes[index + 1];
    ReconfigureCall(AddressOf(previousNode), nextNode.uuid, nextNode.salt,
                    nextNode.nextHost, nextNode.nextPort, s.xGameTimestamp)
  }

  /** The position a uuid lookup finds, or None for an absent uuid. */
  function Lookup(s: NodeState, uuid: Option<Uuid>): (r: Option<nat>)
    ensures r.Some? ==> r.value < |s.nodes| && uuid == Some(s.nodes[r.value].uuid)
    // the first position holding the uuid, as Kotlin's `find` returns the first match
    ensures r.Some? ==> forall j :: 0 <= j < r.value ==> s.nodes[j].uuid != uuid.value
    ensures r.None? <==> uuid.None? || forall j :: 0 <= j < |s.nodes| ==> s.nodes[j].uuid != uuid.value
  {
    if uuid.None? then None else FindIndex(s.nodes, uuid.value)
  }

  /** `unregisterNode`. `net` decides whether the relink request returns normally. */
  function UnregisterNode(s: NodeState, uuid: Option<Uuid>, salt: Option<string>, net: Transport): (r: Step<()>)
    // only the registry ever changes
    ensures r.post == s.(nodes := r.post.nodes)
    // unknown uuid: NotFound; wrong salt: BadRequest; no call, nothing changes
    ensures Lookup(s, uuid).None? ==> r == Step(Failure(NotFound), s, [])
    ensures Lookup(s, uuid).Some? && salt != Some(s.nodes[Lookup(s, uuid).value].salt) ==>
              r == Step(Failure(BadRequest("Invalid salt")), s, [])
    // authorised: the matched entry is the one removed, after a relink when it is not last
    ensures Lookup(s, uuid).Some? && salt == Some(s.nodes[Lookup(s, uuid).value].salt) ==>
              var i := Lookup(s, uuid).value;
              && (i == |s.nodes| - 1 ==> r.calls == [] && r.out.Success?)
              && (i == 0 < |s.nodes| - 1 ==> r == Step(Failure(IndexOutOfBounds(-1)), s, []))
              && (0 < i < |s.nodes| - 1 ==> r.calls == [RelinkCall(s, i)]
                                            && (r.out.Success? <==> net(RelinkCall(s, i), 0)))
              && (r.out.Success? ==> r.post.nodes == RemoveAt(s.nodes, i))
    // any failure leaves the state as it was
    ensures r.out.Failure? ==> r.post == s
    // a relink call is made only for an entry that is not last
    ensures r.calls != [] ==> Lookup(s, uuid).Some? && Lookup(s, uuid).value < |s.nodes| - 1
  {
    var found := Lookup(s, uuid);
    if found.None? then
      Step(Failure(NotFound), s, [])
    else
      var unregisterNode := s.nodes[found.value];
      if salt != Some(unregisterNode.salt) then
        Step(Failure(BadRequest("Invalid salt")), s, [])
      else
        var index := IndexOf(s.nodes, unregisterNode);
        IndexOfAgreesWithFind(s.nodes, uuid.value);
        if index < |s.nodes| - 1 then
          if index - 1 < 0 then
            Step(Failure(IndexOutOfBounds(index - 1)), s, [])
          else
            var call := RelinkCall(s, index);
            if !net(call, 0) then Step(Failure(TransportError), s, [call])
            else Step(Success(()), s.(nodes := RemoveAt(s.nodes, index)), [call])
        else
          Step(Success(()), s.(nodes := RemoveAt(s.nodes, index)), [])
  }

  /** `reconfigure`: the matched entry's address and timestamp are written one
      field after another, so an absent later argument ends the request after
      the earlier fields were already written. */
  function Reconfigure(s: NodeState, uuid: Option<Uuid>, salt: Option<string>, nextHost: Option<string>,
                       nextPort: Option<int>, xGameTimestamp: Option<int>): (r: Step<()>)
    ensures r.calls == []
    // only the registry ever changes, never its length or order of uuids
    ensures r.post == s.(nodes := r.post.nodes) && |r.post.nodes| == |s.nodes|
    // unknown uuid / wrong salt: the same errors as unregisterNode, nothing changes
    ensures Lookup(s, uuid).None? ==> r.out == Failure(NotFound) && r.post == s
    ensures Lookup(s, uuid).Some? && salt != Some(s.nodes[Lookup(s, uuid).value].salt) ==>
              r.out == Failure(BadRequest("Invalid salt")) && r.post == s
    // only the matched entry may change, and only its address and timestamp
    ensures Lookup(s, uuid).Some? ==>
              var i := Lookup(s, uuid).value;
              && (forall j :: 0 <= j < |s.nodes| && j != i ==> r.post.nodes[j] == s.nodes[j])
              && r.post.nodes[i].salt == s.nodes[i].salt
              && r.post.nodes[i].uuid == s.nodes[i].uuid
              && r.post.nodes[i].timeout == s.nodes[i].timeout
    // success exactly when authorised and all three values are present
    ensures r.out.Success? <==>
              Lookup(s, uuid).Some? && salt == Some(s.nodes[Lookup(s, uuid).value].salt) &&
              nextHost.Some? && nextPort.Some? && xGameTimestamp.Some?
    ensures r.out.Success? ==>
              var i := Lookup(s, uuid).value;
              r.post.nodes[i] == s.nodes[i].(nextHost := nextHost.value, nextPort := nextPort.value,
                                             xGameTimestamp := xGameTimestamp.value)
    // an absent argument ends the request with the earlier fields already written
    ensures Lookup(s, uuid).Some? && salt == Some(s.nodes[Lookup(s, uuid).value].salt) && nextHost.None? ==>
              r.out == Failure(NullValue) && r.post == s
    ensures Lookup(s, uuid).Some? && salt == Some(s.nodes[Lookup(s, uuid).value].salt)
            && nextHost.Some? && nextPort.None? ==>
              var i := Lookup(s, uuid).value;
              r.out == Failure(NullValue) && r.post.nodes == s.nodes[i := s.nodes[i].(nextHost := nextHost.value)]
    ensures Lookup(s, uuid).Some? && salt == Some(s.nodes[Lookup(s, uuid).value].salt)
            && nextHost.Some? && nextPort.Some? && xGameTimestamp.None? ==>
              var i := Lookup(s, uuid).value;
              r.out == Failure(NullValue)
              && r.post.nodes == s.nodes[i := s.nodes[i].(nextHost := nextHost.value, nextPort := nextPort.value)]
    ensures r.out.Failure? ==> r.out.error in {NotFound, BadRequest("Invalid salt"), NullValue}
  {
    var found := Lookup(s, uuid);
    if found.None? then
      Step(Failure(NotFound), s, [])
    else
      var i := found.value;
      var reconfigureNode := s.nodes[i];
      if salt != Some(reconfigureNode.salt) then
        Step(Failure(BadRequest("Invalid salt")), s, [])
      else if nextHost.None? then
        Step(Failure(NullValue), s, [])
      else
        var withHost := reconfigureNode.(nextHost := nextHost.value);
        if nextPort.None? then
          Step(Failure(NullValue), s.(nodes := s.nodes[i := withHost]), [])
        else
          var withPort := withHost.(nextPort := nextPort.value);
          if xGameTimestamp.None? then
            Step(Failure(NullValue), s.(nodes := s.nodes[i := withPort]), [])
          else
            Step(Success(()), s.(nodes := s.nodes[i := withPort.(xGameTimestamp := xGameTimestamp.value)]), [])
  }

  /** As written, a first join whose uuid is the controller's own stores two
      entries with that uuid: the lookup runs before the controller entry is
      synthesised. */
  lemma ControllerUuidJoinDuplicates(s: NodeState, requestHost: string, host: string, port: int,
                                     salt: string, name: string)
    requires |s.nodes| == 0 && ValidJoin(Some(host), Some(port), Some(s.uuid), Some(salt), Some(name))
    ensures var r := RegisterNode(s, requestHost, Some(host), Some(port), Some(s.uuid), Some(salt), Some(name));
            && r.out == Success(Registration(Created, Some(RegisterResponse(requestHost, s.config.port,
                                                                             s.config.timeout, s.xGameTimestamp))))
            && |r.post.nodes| == 2 && r.post.nodes[0].uuid == r.post.nodes[1].uuid
            && !UniqueUuids(r.post.nodes)
  {
  }

  /** `registerNode` with the uuid looked up in the registry the join appends
      to, the synthesised controller entry included, so that a joiner can never
      share a uuid with an entry. It differs from the code as written only on a
      first join that reuses the controller's uuid, which is then answered like
      a replay against the controller entry and leaves the registry empty. */
  function RegisterNodeChecked(s: NodeState, requestHost: string, host: Option<string>, port: Option<int>,
                               uuid: Option<Uuid>, salt: Option<string>, name: Option<string>): (r: Step<Registration>)
    // the intended property: uuids stay unique, whatever the request
    ensures UniqueUuids(s.nodes) ==> UniqueUuids(r.post.nodes)
    // everywhere else it is the code as written
    ensures |s.nodes| > 0 || uuid != Some(s.uuid) ==>
              r == RegisterNode(s, requestHost, host, port, uuid, salt, name)
    // a first join with the controller's uuid changes nothing
    ensures |s.nodes| == 0 && uuid == Some(s.uuid) ==> r.post == s && r.calls == []
    ensures r.out.Failure? <==> !ValidJoin(host, port, uuid, salt, name)
  {
    if ValidJoin(host, port, uuid, salt, name) && |s.nodes| == 0 && uuid.value == s.uuid then
      var own := ControllerEntry(s, requestHost);
      if own.salt == salt.value then
        Step(Success(Registration(Accepted, Some(ToRegisterResponse(own)))), s, [])
      else
        Step(Success(Registration(Unauthorized, None)), s, [])
    else
      RegisterNode(s, requestHost, host, port, uuid, salt, name)
  }

  /** As written, a relink stores whatever timestamp it is given, so a negative
      one breaks the `@Min(0)` bound of the entry it rewrites. */
  lemma NegativeRelinkBreaksBound(s: NodeState, uuid: Uuid, salt: string, h: string, p: int, t: int)
    requires t < 0
    requires Reconfigure(s, Some(uuid), Some(salt), Some(h), Some(p), Some(t)).out.Success?
    ensures !AllWellFormed(Reconfigure(s, Some(uuid), Some(salt), Some(h), Some(p), Some(t)).post.nodes)
  {
  }

  /** `reconfigure` with the `@Min(0)` bound on the stored timestamp enforced:
      a negative timestamp is rejected before anything is written. */
  function ReconfigureChecked(s: NodeState, uuid: Option<Uuid>, salt: Option<string>, nextHost: Option<string>,
                              nextPort: Option<int>, xGameTimestamp: Option<int>): (r: Step<()>)
    // the intended property: entries keep their `@Min(0)` bounds, whatever the request
    ensures AllWellFormed(s.nodes) ==> AllWellFormed(r.post.nodes)
    ensures UniqueUuids(s.nodes) ==> UniqueUuids(r.post.nodes)
    // a negative timestamp: BadRequest, nothing written
    ensures xGameTimestamp.Some? && xGameTimestamp.value < 0 ==>
              r == Step(Failure(BadRequest("Invalid timestamp")), s, [])
    // any other request is handled as written
    ensures xGameTimestamp.None? || xGameTimestamp.value >= 0 ==>
              r == Reconfigure(s, uuid, salt, nextHost, nextPort, xGameTimestamp)
  {
    if xGameTimestamp.Some? && xGameTimestamp.value < 0 then
      Step(Failure(BadRequest("Invalid timestamp")), s, [])
    else
      Reconfigure(s, uuid, salt, nextHost, nextPort, xGameTimestamp)
  }
}
