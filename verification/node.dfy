/** The registry entry record and the two ways the service looks entries up:
    `find { it.uuid == uuid }` and the structural `indexOf`. */
module NodeModel {
  import opened Wrappers

  /** A `java.util.UUID`; the service only ever compares uuids for equality. */
  type Uuid = nat

  /** One registry entry. `nextHost`/`nextPort` hold the address of the node the
      entry stands for (the address a later joiner is told to forward to). The
      record is a value: "changing" an entry replaces it at its position. */
  datatype Node = Node(
    nextHost: string,
    nextPort: int,
    timeout: int,
    xGameTimestamp: int,
    salt: string,
    uuid: Uuid)

  /** The answer handed to a joining node: where to forward, with which timeout,
      from which causal timestamp on. */
  datatype RegisterResponse = RegisterResponse(
    nextHost: string,
    nextPort: int,
    timeout: int,
    xGameTimestamp: int)

  /** The `@Min(0)` constraints on `timeout` and `xGameTimestamp`. */
  predicate WellFormed(n: Node) {
    n.timeout >= 0 && n.xGameTimestamp >= 0
  }

  predicate AllWellFormed(nodes: seq<Node>) {
    forall i :: 0 <= i < |nodes| ==> WellFormed(nodes[i])
  }

  /** No two entries of the registry share a uuid. */
  predicate UniqueUuids(nodes: seq<Node>) {
    forall i, j :: 0 <= i < j < |nodes| ==> nodes[i].uuid != nodes[j].uuid
  }

  /** `nodeToRegisterResponse`: the forwarding assignment an entry stands for. */
  function ToRegisterResponse(n: Node): RegisterResponse {
    RegisterResponse(n.nextHost, n.nextPort, n.timeout, n.xGameTimestamp)
  }

  /** Position of the first entry whose uuid is `u` (`nodes.find { it.uuid == u }`). */
  function FindIndex(nodes: seq<Node>, u: Uuid): (r: Option<nat>)
    ensures r.Some? ==> r.value < |nodes| && nodes[r.value].uuid == u
    ensures r.Some? ==> forall j :: 0 <= j < r.value ==> nodes[j].uuid != u
    ensures r.None? <==> forall j :: 0 <= j < |nodes| ==> nodes[j].uuid != u
  {
    if |nodes| == 0 then None
    else if nodes[0].uuid == u then Some(0)
    else
      match FindIndex(nodes[1..], u)
      case None => None
      case Some(k) => Some(k + 1)
  }

  /** Kotlin's `List.indexOf`: the first position holding an entry structurally
      equal to `n` (all six fields), or -1. */
  function IndexOf(nodes: seq<Node>, n: Node): (r: int)
    ensures -1 <= r < |nodes|
    ensures r == -1 <==> n !in nodes
    ensures r >= 0 ==> nodes[r] == n && forall j :: 0 <= j < r ==> nodes[j] != n
  {
    if |nodes| == 0 then -1
    else if nodes[0] == n then 0
    else
      var k := IndexOf(nodes[1..], n);
      if k == -1 then -1 else k + 1
  }

  /** `removeAt(i)`: the registry without position `i`. */
  function RemoveAt(nodes: seq<Node>, i: nat): (r: seq<Node>)
    requires i < |nodes|
    ensures |r| == |nodes| - 1
    ensures forall j :: 0 <= j < i ==> r[j] == nodes[j]
    ensures forall j :: i <= j < |r| ==> r[j] == nodes[j + 1]
  {
    nodes[..i] + nodes[i + 1..]
  }

  /** Because equality is structural, the entry found by uuid sits exactly where
      `indexOf` looks for it, even when uuids repeat: an equal entry earlier in
      the list would carry the same uuid and so would have been found first. */
  lemma IndexOfAgreesWithFind(nodes: seq<Node>, u: Uuid)
    requires FindIndex(nodes, u).Some?
    ensures IndexOf(nodes, nodes[FindIndex(nodes, u).value]) == FindIndex(nodes, u).value
  {
  }

  /** With unique uuids, a uuid lookup of any entry's uuid finds that entry. */
  lemma FindUnique(nodes: seq<Node>, i: nat)
    requires UniqueUuids(nodes)
    requires i < |nodes|
    ensures FindIndex(nodes, nodes[i].uuid) == Some(i)
  {
  }

  /** Removing an entry keeps uuids unique and drops exactly that entry's uuid. */
  lemma RemoveAtKeepsUnique(nodes: seq<Node>, i: nat)
    requires UniqueUuids(nodes)
    requires i < |nodes|
    ensures UniqueUuids(RemoveAt(nodes, i))
    ensures FindIndex(RemoveAt(nodes, i), nodes[i].uuid).None?
  {
  }
}
