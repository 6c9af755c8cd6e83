/**
 * Ring membership arithmetic over a snapshot of the registry: the position of
 * a port (`findIndex`) and the port a node hands the token to (the successor
 * choice inside `dialNextInLine`). Ring order is registry order, wrapping round
 * from the last port to the first.
 */
module Membership {
  import opened Circular

  /** No port is registered twice. */
  predicate Distinct(ports: seq<int>) {
    forall i, j :: 0 <= i < j < |ports| ==> ports[i] != ports[j]
  }

  /** The position of the first occurrence of `target` in `ports`, or -1 when it is absent. */
  function IndexOf(ports: seq<int>, target: int): (i: int)
    ensures -1 <= i < |ports|
    ensures i == -1 <==> target !in ports
    ensures 0 <= i ==> ports[i] == target && target !in ports[..i]
  {
    if ports == [] then -1
    else if ports[0] == target then 0
    else
      var j := IndexOf(ports[1..], target);
      assert j != -1 ==> ports[..j + 1] == [ports[0]] + ports[1..][..j];
      if j == -1 then -1 else j + 1
  }

  /** `findIndex`: a linear scan that stops at the first match. */
  method FindIndex(ports: seq<int>, target: int) returns (i: int)
    ensures i == IndexOf(ports, target)
  {
    var k := 0;
    while k < |ports|
      invariant 0 <= k <= |ports|
      invariant target !in ports[..k]
    {
      if ports[k] == target {
        var first := IndexOf(ports, target);
        assert ports[k] in ports[..first + 1];
        return k;
      }
      assert ports[..k + 1] == ports[..k] + [ports[k]];
      k := k + 1;
    }
    assert ports[..k] == ports;
    return -1;
  }

  /**
   * The port after position `i` in the ring: the next entry, or the first one
   * when `i` is the last position. Position -1 (a port not in the registry)
   * also yields the first entry.
   */
  function SuccessorAt(ports: seq<int>, i: int): (next: int)
    requires |ports| > 0 && -1 <= i < |ports|
    ensures next in ports
  {
    if i + 1 == |ports| then ports[0] else ports[i + 1]
  }

  /** The port a node at `portNr` dials, resolved against a registry snapshot. */
  function Successor(ports: seq<int>, portNr: int): (next: int)
    requires |ports| > 0
    ensures next in ports
  {
    SuccessorAt(ports, IndexOf(ports, portNr))
  }

  /** The successor of a registered port is the next one in circular order; the last wraps to the first. */
  lemma SuccessorIsNextInRing(ports: seq<int>, portNr: int)
    requires portNr in ports
    ensures Successor(ports, portNr) == ports[(IndexOf(ports, portNr) + 1) % |ports|]
    ensures IndexOf(ports, portNr) == |ports| - 1 ==> Successor(ports, portNr) == ports[0]
  {
    ModInRange(IndexOf(ports, portNr) + 1, |ports|);
  }

  /** A port missing from the registry hands on to the first registered port. */
  lemma SuccessorOfAbsentPort(ports: seq<int>, portNr: int)
    requires |ports| > 0 && portNr !in ports
    ensures Successor(ports, portNr) == ports[0]
  {
  }

  /** In a registry without repetitions, the member at position `k` hands on to position `(k + 1) % |ports|`. */
  lemma SuccessorOfMember(ports: seq<int>, k: int)
    requires Distinct(ports) && 0 <= k < |ports|
    ensures IndexOf(ports, ports[k]) == k
    ensures Successor(ports, ports[k]) == ports[(k + 1) % |ports|]
  {
    ModInRange(k + 1, |ports|);
  }

  /** A node alone in the registry is its own successor. */
  lemma SuccessorAlone(p: int)
    ensures Successor([p], p) == p
  {
  }
}
