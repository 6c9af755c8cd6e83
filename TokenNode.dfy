/**
 * One node of the ring: the token state of the `node` record, the receive side
 * of the protocol (`PassToken`), the send side (`dialNextInLine`) and the
 * critical-section request. Every operation is one atomic step, as the node's
 * mutex makes it; the transport is abstracted to whether the remote call
 * succeeded, and the critical-section log to the ports it names.
 */
module TokenNode {
  import opened Wrappers
  import opened Membership
  import opened Ports

  /** The successor a node records before it has ever dialled. */
  const UnsetNextPortNr: int := -1000

  /** The fields of the `node` record that the protocol reads and writes. */
  datatype NodeState = NodeState(portNr: int, nextPortNr: int, hasToken: bool, wantsToPerform: bool)

  /** What one attempt to forward the token came to. */
  datatype DialResult =
    | Alone              // fewer than two registered ports: no remote call
    | Passed(to: int)    // the successor acknowledged the token
    | CallFailed(to: int) // dialling or calling the successor failed; the process then exits

  /** The state after the token arrives (the receive side, `PassToken`). */
  function Received(s: NodeState): (r: NodeState)
    ensures r.hasToken && !r.wantsToPerform
    ensures r.portNr == s.portNr && r.nextPortNr == s.nextPortNr
  {
    s.(hasToken := true, wantsToPerform := false)
  }

  /** The critical-section records an arrival of the token writes: one naming the node if it wanted the section. */
  function ArrivalRecords(s: NodeState): (records: seq<int>)
    ensures |records| == (if s.wantsToPerform then 1 else 0)
    ensures forall p :: p in records ==> p == s.portNr
  {
    if s.wantsToPerform then [s.portNr] else []
  }

  /** The state after the request generator has asked for the critical section. */
  function Requested(s: NodeState): (r: NodeState)
    ensures r.wantsToPerform
    ensures r.portNr == s.portNr && r.nextPortNr == s.nextPortNr && r.hasToken == s.hasToken
  {
    s.(wantsToPerform := true)
  }

  /** The port a node dials for a registry snapshot, or None when it is alone. */
  function DialTarget(s: NodeState, ports: seq<int>): (t: Option<int>)
    ensures t.None? <==> |ports| < 2
    ensures t.Some? ==> t.value in ports
  {
    if |ports| < 2 then None else Some(Successor(ports, s.portNr))
  }

  /** The sender's state after one attempt to forward the token (the send side, `dialNextInLine`). */
  function Dialled(s: NodeState, ports: seq<int>, callSucceeds: bool): (r: NodeState)
    ensures r.portNr == s.portNr && r.wantsToPerform == s.wantsToPerform
    ensures |ports| < 2 ==> r == s
    ensures |ports| >= 2 ==> r.nextPortNr in ports && r.hasToken == (s.hasToken && !callSucceeds)
  {
    match DialTarget(s, ports)
    case None => s
    case Some(next) => s.(nextPortNr := next, hasToken := s.hasToken && !callSucceeds)
  }

  /** The outcome of that attempt. */
  function DialOutcome(s: NodeState, ports: seq<int>, callSucceeds: bool): (d: DialResult)
    ensures d.Alone? <==> |ports| < 2
    ensures d.Passed? <==> |ports| >= 2 && callSucceeds
    ensures !d.Alone? ==> d.to in ports && d.to == Dialled(s, ports, callSucceeds).nextPortNr
  {
    match DialTarget(s, ports)
    case None => Alone
    case Some(next) => if callSucceeds then Passed(next) else CallFailed(next)
  }

  /**
   * Whatever the prior state, an arrival leaves the node holding the token with
   * no pending request and the same ports; it records the critical section
   * exactly when one was wanted. These four clauses restate the contracts of
   * `Received` and `ArrivalRecords` so that the whole arrival is stated in one
   * place; what is new here is the last clause: a second arrival right after
   * the first changes nothing and records nothing.
   */
  lemma ArrivalSettlesState(s: NodeState)
    ensures Received(s).hasToken && !Received(s).wantsToPerform
    ensures Received(s).portNr == s.portNr && Received(s).nextPortNr == s.nextPortNr
    ensures |ArrivalRecords(s)| == (if s.wantsToPerform then 1 else 0)
    ensures forall p :: p in ArrivalRecords(s) ==> p == s.portNr
    ensures Received(Received(s)) == Received(s) && ArrivalRecords(Received(s)) == []
  {
  }

  /**
   * Asking for the critical section is idempotent. The second clause restates
   * part of `Requested`'s contract: a request does not touch the token or the
   * successor.
   */
  lemma RequestIsIdempotent(s: NodeState)
    ensures Requested(Requested(s)) == Requested(s)
    ensures Requested(s).hasToken == s.hasToken && Requested(s).nextPortNr == s.nextPortNr
  {
  }

  /** A node alone in the registry changes nothing and makes no remote call. */
  lemma DialAloneChangesNothing(s: NodeState, ports: seq<int>, callSucceeds: bool)
    requires |ports| < 2
    ensures Dialled(s, ports, callSucceeds) == s
    ensures DialOutcome(s, ports, callSucceeds) == Alone
  {
  }

  /**
   * With at least two ports, the node dials the port after its own in ring
   * order (the first port when it is last or not registered); a successful call
   * gives the token away, a failed one leaves the node holding whatever it held.
   */
  lemma DialChoosesSuccessor(s: NodeState, ports: seq<int>, callSucceeds: bool)
    requires |ports| >= 2
    ensures s.portNr in ports ==>
      Dialled(s, ports, callSucceeds).nextPortNr == ports[(IndexOf(ports, s.portNr) + 1) % |ports|]
    ensures s.portNr !in ports ==> Dialled(s, ports, callSucceeds).nextPortNr == ports[0]
    ensures Dialled(s, ports, callSucceeds).hasToken == (s.hasToken && !callSucceeds)
    ensures Dialled(s, ports, callSucceeds).portNr == s.portNr
    ensures Dialled(s, ports, callSucceeds).wantsToPerform == s.wantsToPerform
    ensures DialOutcome(s, ports, callSucceeds) ==
      if callSucceeds then Passed(Dialled(s, ports, callSucceeds).nextPortNr)
      else CallFailed(Dialled(s, ports, callSucceeds).nextPortNr)
  {
    if s.portNr in ports {
      SuccessorIsNextInRing(ports, s.portNr);
    } else {
      SuccessorOfAbsentPort(ports, s.portNr);
    }
  }

  /** The shared `node` record, updated in place under its mutex. */
  class Node {
    var portNr: int
    var nextPortNr: int
    var hasToken: bool
    var wantsToPerform: bool
    /** The ports named by the critical-section records this node has written to the log, oldest first. */
    ghost var audit: seq<int>

    function State(): NodeState
      reads this
    {
      NodeState(portNr, nextPortNr, hasToken, wantsToPerform)
    }

    /** The node `main` creates once registration has chosen its port and whether it starts with the token. */
    constructor (portNr: int, hasToken: bool)
      ensures State() == NodeState(portNr, UnsetNextPortNr, hasToken, false)
      ensures audit == []
    {
      this.portNr := portNr;
      this.nextPortNr := UnsetNextPortNr;
      this.hasToken := hasToken;
      this.wantsToPerform := false;
      this.audit := [];
    }

    /** One turn of the request generator: the node asks for the critical section. */
    method RequestCriticalSection()
      modifies this
      ensures State() == Requested(old(State()))
      ensures wantsToPerform && hasToken == old(hasToken)
      ensures audit == old(audit)
    {
      wantsToPerform := true;
    }

    /**
     * `PassToken`, the receive side: run the critical section if one was
     * wanted (one log record naming this node) and take the token.
     */
    method PassToken()
      modifies this
      ensures State() == Received(old(State()))
      ensures hasToken && !wantsToPerform
      ensures portNr == old(portNr) && nextPortNr == old(nextPortNr)
      ensures audit == old(audit) + ArrivalRecords(old(State()))
    {
      if wantsToPerform {
        audit := audit + [portNr];
        wantsToPerform := false;
      }
      hasToken := true;
    }

    /**
     * `dialNextInLine`, the send side: read the registry, give up when alone,
     * otherwise record the successor, call it, and on success drop the token.
     * `callSucceeds` stands for the outcome of dialling the successor and of
     * its `PassToken`.
     */
    method DialNextInLine(registry: seq<string>, callSucceeds: bool) returns (result: DialResult)
      modifies this
      ensures State() == Dialled(old(State()), ParsePorts(registry), callSucceeds)
      ensures result == DialOutcome(old(State()), ParsePorts(registry), callSucceeds)
      ensures audit == old(audit)
    {
      var ports := ReadPorts(registry);
      if |ports| < 2 {
        return Alone;
      }
      var i := FindIndex(ports, portNr);
      if i + 1 == |ports| {
        nextPortNr := ports[0];
      } else {
        nextPortNr := ports[i + 1];
      }
      if !callSucceeds {
        return CallFailed(nextPortNr);
      }
      hasToken := false;
      return Passed(nextPortNr);
    }

    /** One turn of the forwarding loop: dial the successor only while holding the token. */
    method ForwardTurn(registry: seq<string>, callSucceeds: bool) returns (result: Option<DialResult>)
      modifies this
      ensures old(hasToken) ==> State() == Dialled(old(State()), ParsePorts(registry), callSucceeds)
      ensures old(hasToken) ==> result == Some(DialOutcome(old(State()), ParsePorts(registry), callSucceeds))
      ensures !old(hasToken) ==> State() == old(State()) && result == None
      ensures audit == old(audit)
    {
      if hasToken {
        var dialled := DialNextInLine(registry, callSucceeds);
        result := Some(dialled);
      } else {
        result := None;
      }
    }
  }
}
