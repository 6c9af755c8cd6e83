/**
 * The whole ring as one value: the registry snapshot, every member's node
 * state in registry order, and the shared critical-section log. Each member's
 * forwarding loop runs `dialNextInLine` only while it holds the token, and a
 * successful call runs the successor's `PassToken` before the sender drops
 * the token; the model shows that this moves the single token one member on in
 * registry order, so that a member that wants the critical section performs it
 * within one round of the ring.
 */
module Ring {
  import opened Circular
  import opened Decimal
  import opened Membership
  import opened Ports
  import opened Registration
  import opened TokenNode

  datatype System = System(ports: seq<int>, nodes: seq<NodeState>, log: seq<int>)

  /** One node per registered port, in registry order, and no port registered twice. */
  predicate WellFormed(r: System) {
    |r.nodes| == |r.ports| && Distinct(r.ports) &&
    forall i :: 0 <= i < |r.nodes| ==> r.nodes[i].portNr == r.ports[i]
  }

  /** The member at position `h` holds the token and no other member does. */
  predicate HeldOnlyBy(nodes: seq<NodeState>, h: int) {
    0 <= h < |nodes| && nodes[h].hasToken &&
    forall j :: 0 <= j < |nodes| && j != h ==> !nodes[j].hasToken
  }

  /**
   * One turn of the forwarding loop of the member at position `h`: nothing
   * unless it holds the token; otherwise it dials its successor, and when the
   * call succeeds the successor receives the token.
   */
  function Forward(r: System, h: nat, callSucceeds: bool): (r': System)
    requires |r.nodes| == |r.ports| && h < |r.nodes|
    ensures |r'.nodes| == |r.nodes| && r'.ports == r.ports && r.log <= r'.log
  {
    var sender := r.nodes[h];
    if !sender.hasToken then r
    else
      match DialTarget(sender, r.ports)
      case None => r
      case Some(next) =>
        if !callSucceeds then r.(nodes := r.nodes[h := Dialled(sender, r.ports, false)])
        else
          var to := IndexOf(r.ports, next);
          var receiver := r.nodes[to];
          r.(nodes := r.nodes[to := Received(receiver)][h := Dialled(sender, r.ports, true)],
             log := r.log + ArrivalRecords(receiver))
  }

  /** A turn keeps the ring well formed: every member keeps its own port. */
  lemma ForwardKeepsWellFormed(r: System, h: nat, callSucceeds: bool)
    requires WellFormed(r) && h < |r.nodes|
    ensures WellFormed(Forward(r, h, callSucceeds))
  {
  }

  /** Only the token holder forwards anything. */
  lemma NonHolderDoesNothing(r: System, h: nat, callSucceeds: bool)
    requires WellFormed(r) && h < |r.nodes| && !r.nodes[h].hasToken
    ensures Forward(r, h, callSucceeds) == r
  {
  }

  /**
   * A successful hand-off by the only holder: the successor in registry order
   * receives the token (running its critical section if it wanted one), the
   * sender records that successor and drops the token, every other member is
   * untouched, and the holder is again unique.
   */
  lemma ForwardHandsOn(r: System, h: nat)
    requires WellFormed(r) && HeldOnlyBy(r.nodes, h) && |r.ports| >= 2
    ensures var s := NextPos(h, |r.nodes|);
      var r' := Forward(r, h, true);
      s != h &&
      r'.nodes[s] == Received(r.nodes[s]) &&
      r'.nodes[h] == Dialled(r.nodes[h], r.ports, true) &&
      r'.nodes[h].nextPortNr == r.ports[s] &&
      (forall j :: 0 <= j < |r.nodes| && j != h && j != s ==> r'.nodes[j] == r.nodes[j]) &&
      r'.log == r.log + ArrivalRecords(r.nodes[s]) &&
      HeldOnlyBy(r'.nodes, s)
  {
    var s := NextPos(h, |r.nodes|);
    NextPosIsMod(h, |r.nodes|);
    SuccessorOfMember(r.ports, h);
    SuccessorOfMember(r.ports, s);
  }

  /**
   * A call that fails before the successor's `PassToken` has run leaves the
   * token with the sender and delivers nothing (the process then exits).
   */
  lemma FailedCallKeepsToken(r: System, h: nat)
    requires WellFormed(r) && HeldOnlyBy(r.nodes, h)
    ensures HeldOnlyBy(Forward(r, h, false).nodes, h)
    ensures Forward(r, h, false).log == r.log
  {
  }

  /**
   * Safety of one turn: whichever member takes it and whatever the call's
   * outcome, the ring still has exactly one holder. It is the successor after
   * a successful hand-off by the holder, and the same holder otherwise.
   */
  lemma AnyTurnKeepsOneHolder(r: System, t: nat, m: nat, callSucceeds: bool)
    requires WellFormed(r) && HeldOnlyBy(r.nodes, t) && m < |r.nodes|
    ensures HeldOnlyBy(Forward(r, m, callSucceeds).nodes,
      if m == t && callSucceeds && |r.ports| >= 2 then NextPos(t, |r.nodes|) else t)
  {
    if m != t {
      NonHolderDoesNothing(r, m, callSucceeds);
    } else if |r.ports| >= 2 {
      if callSucceeds {
        ForwardHandsOn(r, t);
      } else {
        FailedCallKeepsToken(r, t);
      }
    }
  }

  /** `k` successful turns of the forwarding loops, each by the member after the previous one, starting at position `h`. */
  function Circulate(r: System, h: nat, k: nat): (r': System)
    requires |r.nodes| == |r.ports| && h < |r.nodes|
    ensures |r'.nodes| == |r.nodes| && r'.ports == r.ports && r.log <= r'.log
  {
    if k == 0 then r else Forward(Circulate(r, h, k - 1), Advance(h, k - 1, |r.nodes|), true)
  }

  /** Any number of turns keeps the ring well formed. */
  lemma {:induction false} CirculateKeepsWellFormed(r: System, h: nat, k: nat)
    requires WellFormed(r) && h < |r.nodes|
    ensures WellFormed(Circulate(r, h, k))
  {
    if k > 0 {
      CirculateKeepsWellFormed(r, h, k - 1);
      ForwardKeepsWellFormed(Circulate(r, h, k - 1), Advance(h, k - 1, |r.nodes|), true);
    }
  }

  /**
   * The last of `k` turns is taken by the member `k - 1` positions after `h`.
   * This is one unfolding of `Circulate`, kept as a lemma only so that the
   * proofs below can take that step without unfolding `Circulate` themselves.
   */
  lemma CirculateStep(r: System, h: nat, k: nat)
    requires WellFormed(r) && h < |r.nodes| && k >= 1
    ensures Circulate(r, h, k) == Forward(Circulate(r, h, k - 1), Advance(h, k - 1, |r.nodes|), true)
  {
  }

  /** The `m`-th turn of a circulation moves the only token one member on. */
  lemma HandOnTurn(r: System, h: nat, m: nat)
    requires WellFormed(r) && h < |r.nodes| && |r.ports| >= 2 && 1 <= m
    requires HeldOnlyBy(Circulate(r, h, m - 1).nodes, Advance(h, m - 1, |r.nodes|))
    ensures HeldOnlyBy(Circulate(r, h, m).nodes, Advance(h, m, |r.nodes|))
  {
    CirculateStep(r, h, m);
    CirculateKeepsWellFormed(r, h, m - 1);
    ForwardHandsOn(Circulate(r, h, m - 1), Advance(h, m - 1, |r.nodes|));
  }

  lemma {:induction false} TokenAdvances(r: System, h: nat, k: nat)
    requires WellFormed(r) && HeldOnlyBy(r.nodes, h) && |r.ports| >= 2
    ensures HeldOnlyBy(Circulate(r, h, k).nodes, Advance(h, k, |r.nodes|))
  {
    if k > 0 {
      TokenAdvances(r, h, k - 1);
      HandOnTurn(r, h, k);
    }
  }

  /**
   * Repeated hand-offs visit the members in registry order, wrapping round,
   * and the token always has exactly one holder.
   */
  lemma CirculationVisitsInOrder(r: System, h: nat, k: nat)
    requires WellFormed(r) && HeldOnlyBy(r.nodes, h) && |r.ports| >= 2
    ensures HeldOnlyBy(Circulate(r, h, k).nodes, (h + k) % |r.nodes|)
  {
    TokenAdvances(r, h, k);
    AdvanceIsMod(h, k, |r.nodes|);
  }

  /** A member alone in the registry never hands the token on, however often it tries. */
  lemma {:induction false} AloneNeverForwards(r: System, h: nat, k: nat)
    requires WellFormed(r) && h < |r.nodes| && |r.ports| < 2
    ensures Circulate(r, h, k) == r
  {
    if k > 0 {
      AloneNeverForwards(r, h, k - 1);
    }
  }

  /** The number of hand-offs from position `h` until the token reaches position `j`; a full round when `j == h`. */
  function Hops(h: nat, j: nat, n: nat): (k: nat)
    requires h < n && j < n
    ensures 1 <= k <= n
  {
    if h < j then j - h else j + n - h
  }

  /** The token reaches position `j` from position `h` after exactly `Hops(h, j, n)` hand-offs, and not before. */
  lemma HopsReachTarget(h: nat, j: nat, n: nat, m: nat)
    requires h < n && j < n && 1 <= m <= Hops(h, j, n)
    ensures Advance(h, m, n) == j <==> m == Hops(h, j, n)
  {
    AdvanceWithinRound(h, m, n);
  }

  /** A hand-off that does not reach a member leaves that member's request pending. */
  lemma PendingSurvivesHandOff(r: System, h: nat, j: nat)
    requires WellFormed(r) && HeldOnlyBy(r.nodes, h) && |r.ports| >= 2
    requires j < |r.nodes| && r.nodes[j].wantsToPerform && NextPos(h, |r.nodes|) != j
    ensures Forward(r, h, true).nodes[j].wantsToPerform
  {
    ForwardHandsOn(r, h);
    if j == h {
      DialChoosesSuccessor(r.nodes[h], r.ports, true);
    }
  }

  /** The same, for the `m`-th turn of a circulation. */
  lemma PendingSurvivesTurn(r: System, h: nat, j: nat, m: nat)
    requires WellFormed(r) && h < |r.nodes| && |r.ports| >= 2 && 1 <= m
    requires HeldOnlyBy(Circulate(r, h, m - 1).nodes, Advance(h, m - 1, |r.nodes|))
    requires j < |r.nodes| && Circulate(r, h, m - 1).nodes[j].wantsToPerform
    requires Advance(h, m, |r.nodes|) != j
    ensures Circulate(r, h, m).nodes[j].wantsToPerform
  {
    CirculateStep(r, h, m);
    CirculateKeepsWellFormed(r, h, m - 1);
    PendingSurvivesHandOff(Circulate(r, h, m - 1), Advance(h, m - 1, |r.nodes|), j);
  }

  /** A member that wants the critical section keeps wanting it until the token reaches it. */
  lemma {:induction false} RequestPendingUntilArrival(r: System, h: nat, j: nat, m: nat)
    requires WellFormed(r) && HeldOnlyBy(r.nodes, h) && |r.ports| >= 2
    requires j < |r.nodes| && r.nodes[j].wantsToPerform
    requires m < Hops(h, j, |r.nodes|)
    ensures Circulate(r, h, m).nodes[j].wantsToPerform
  {
    if m > 0 {
      RequestPendingUntilArrival(r, h, j, m - 1);
      TokenAdvances(r, h, m - 1);
      HopsReachTarget(h, j, |r.nodes|, m);
      PendingSurvivesTurn(r, h, j, m);
    }
  }

  /** The hand-off that brings the token to a member that wants the critical section. */
  lemma ArrivalPerformsCriticalSection(r: System, h: nat)
    requires WellFormed(r) && HeldOnlyBy(r.nodes, h) && |r.ports| >= 2
    requires r.nodes[NextPos(h, |r.nodes|)].wantsToPerform
    ensures var j := NextPos(h, |r.nodes|);
      var r' := Forward(r, h, true);
      HeldOnlyBy(r'.nodes, j) && !r'.nodes[j].wantsToPerform &&
      r'.log == r.log + [r.ports[j]]
  {
    ForwardHandsOn(r, h);
  }

  /**
   * Liveness: with no failures, a member that wants the critical section
   * performs it within at most one round of the ring (at most as many
   * hand-offs as there are members), writing a log record that names it, and
   * no longer wants it afterwards.
   */
  lemma CriticalSectionWithinOneRound(r: System, h: nat, j: nat)
    requires WellFormed(r) && HeldOnlyBy(r.nodes, h) && |r.ports| >= 2
    requires j < |r.nodes| && r.nodes[j].wantsToPerform
    ensures Hops(h, j, |r.nodes|) <= |r.nodes|
    ensures var after := Circulate(r, h, Hops(h, j, |r.nodes|));
      HeldOnlyBy(after.nodes, j) && !after.nodes[j].wantsToPerform &&
      r.ports[j] in after.log[|r.log|..]
  {
    var k := Hops(h, j, |r.nodes|);
    TokenReachesRequester(r, h, j, k);
    var before, after := Circulate(r, h, k - 1), Circulate(r, h, k);
    assert |before.log| >= |r.log|;
    var written := after.log[|r.log|..];
    assert written[|written| - 1] == after.log[|after.log| - 1] == r.ports[j];
  }

  /** The `m`-th turn of a circulation, when it reaches a member that wants the critical section. */
  lemma ArrivalTurn(r: System, h: nat, m: nat)
    requires WellFormed(r) && h < |r.nodes| && |r.ports| >= 2 && 1 <= m
    requires HeldOnlyBy(Circulate(r, h, m - 1).nodes, Advance(h, m - 1, |r.nodes|))
    requires Circulate(r, h, m - 1).nodes[Advance(h, m, |r.nodes|)].wantsToPerform
    ensures var j, after := Advance(h, m, |r.nodes|), Circulate(r, h, m);
      HeldOnlyBy(after.nodes, j) && !after.nodes[j].wantsToPerform &&
      after.log == Circulate(r, h, m - 1).log + [r.ports[j]]
  {
    CirculateStep(r, h, m);
    CirculateKeepsWellFormed(r, h, m - 1);
    ArrivalPerformsCriticalSection(Circulate(r, h, m - 1), Advance(h, m - 1, |r.nodes|));
  }

  lemma TokenReachesRequester(r: System, h: nat, j: nat, k: nat)
    requires WellFormed(r) && HeldOnlyBy(r.nodes, h) && |r.ports| >= 2
    requires j < |r.nodes| && r.nodes[j].wantsToPerform
    requires k == Hops(h, j, |r.nodes|)
    ensures var after := Circulate(r, h, k);
      HeldOnlyBy(after.nodes, j) && !after.nodes[j].wantsToPerform &&
      after.log == Circulate(r, h, k - 1).log + [r.ports[j]]
  {
    RequestPendingUntilArrival(r, h, j, k - 1);
    TokenAdvances(r, h, k - 1);
    HopsReachTarget(h, j, |r.nodes|, k);
    assert Advance(h, k, |r.nodes|) == j;
    ArrivalTurn(r, h, k);
  }

  /**
   * The ring `n` sequential registrations produce: the registered ports, each
   * node created with the token exactly when the registry was empty at its
   * registration, nobody wanting the critical section yet, and an empty log.
   */
  function Bootstrapped(n: nat): (r: System)
    requires FirstPort + n <= MaxInt64
    ensures WellFormed(r) && |r.nodes| == n && r.log == []
    ensures r.ports == ParsePorts(RegistryAfter(n))
  {
    SequentialRegistration(n);
    var ports := ParsePorts(RegistryAfter(n));
    System(ports,
           seq(n, i requires 0 <= i < n =>
                 NodeState(ports[i], UnsetNextPortNr, ParsePorts(RegistryAfter(i)) == [], false)),
           [])
  }

  /** A freshly bootstrapped ring of at least one member is well formed and its first registrant alone holds the token. */
  lemma BootstrapHasOneHolder(n: nat)
    requires 1 <= n && FirstPort + n <= MaxInt64
    ensures WellFormed(Bootstrapped(n))
    ensures HeldOnlyBy(Bootstrapped(n).nodes, 0)
    ensures ConsecutiveFromFirst(Bootstrapped(n).ports)
  {
    SequentialRegistration(n);
    forall i | 0 <= i < n
      ensures Bootstrapped(n).nodes[i].hasToken <==> i == 0
    {
      SequentialRegistration(i);
    }
  }

  /**
   * Nodes that register one after another as 50000, 50001, ... pass the token
   * round in that order, starting from the first registrant: after `k`
   * successful hand-offs the only holder is port `50000 + k % n`. With three
   * nodes the token goes 50000 -> 50001 -> 50002 -> 50000.
   */
  lemma BootstrappedRingRoundRobin(n: nat, k: nat)
    requires 2 <= n && FirstPort + n <= MaxInt64
    ensures var r := Circulate(Bootstrapped(n), 0, k);
      HeldOnlyBy(r.nodes, k % n) && r.ports[k % n] == FirstPort + k % n
  {
    BootstrapHasOneHolder(n);
    RoundRobinFromFirstPort(Bootstrapped(n), k);
  }

  lemma RoundRobinFromFirstPort(r: System, k: nat)
    requires WellFormed(r) && HeldOnlyBy(r.nodes, 0) && |r.ports| >= 2
    requires ConsecutiveFromFirst(r.ports)
    ensures var r' := Circulate(r, 0, k);
      HeldOnlyBy(r'.nodes, k % |r.nodes|) && r'.ports[k % |r.nodes|] == FirstPort + k % |r.nodes|
  {
    CirculationVisitsInOrder(r, 0, k);
  }

  /** Three nodes register as 50000, 50001 and 50002; three successful hand-offs pass the token 50000 -> 50001 -> 50002 -> 50000. */
  lemma ThreeNodeRound()
    ensures HeldOnlyBy(Circulate(Bootstrapped(3), 0, 1).nodes, 1) && Bootstrapped(3).ports[1] == 50001
    ensures HeldOnlyBy(Circulate(Bootstrapped(3), 0, 2).nodes, 2) && Bootstrapped(3).ports[2] == 50002
    ensures HeldOnlyBy(Circulate(Bootstrapped(3), 0, 3).nodes, 0) && Bootstrapped(3).ports[0] == 50000
  {
    BootstrappedRingRoundRobin(3, 1);
    BootstrappedRingRoundRobin(3, 2);
    BootstrappedRingRoundRobin(3, 3);
  }
}
