/**
 * Joining the ring (the registration step of `main`): a node reads the
 * registry, takes the first port 50000 and the token when the registry is
 * empty, or the last registered port plus one and no token otherwise, and
 * appends its port to the registry as one more decimal line.
 */
module Registration {
  import opened Decimal
  import opened Ports

  const FirstPort: int := 50000

  /** Ports strictly increase in registry order. */
  predicate StrictlyIncreasing(ports: seq<int>) {
    forall i, j :: 0 <= i < j < |ports| ==> ports[i] < ports[j]
  }

  /** The ports are 50000, 50001, ... in registry order. */
  predicate ConsecutiveFromFirst(ports: seq<int>) {
    forall i :: 0 <= i < |ports| ==> ports[i] == FirstPort + i
  }

  /** The port a node takes for a registry snapshot; Go's `int` addition wraps round at 64 bits. */
  function NewPort(ports: seq<int>): (p: int)
    ensures InInt64(p)
    ensures ports == [] ==> p == FirstPort
    ensures ports != [] && InInt64(ports[|ports| - 1] + 1) ==> p == ports[|ports| - 1] + 1
  {
    if |ports| == 0 then FirstPort else Wrap64(ports[|ports| - 1] + 1)
  }

  /** The registry file after one more node has registered. */
  function Registered(lines: seq<string>): (lines': seq<string>)
    ensures |lines'| == |lines| + 1 && lines'[..|lines|] == lines
  {
    lines + [IntToString(NewPort(ParsePorts(lines)))]
  }

  /** The line a node appends is read back by every later snapshot as exactly its port, after the earlier ones. */
  lemma RegisteredReadsBack(lines: seq<string>)
    ensures ParsePorts(Registered(lines)) == ParsePorts(lines) + [NewPort(ParsePorts(lines))]
  {
    var p := NewPort(ParsePorts(lines));
    ParsePortsAppend(lines, [IntToString(p)]);
    ParseFormatRoundTrip(p);
    assert [IntToString(p)][..0] == [];
  }

  /**
   * Registration (`main`): read the registry, choose the port and whether the
   * node starts with the token, and append the port to the registry.
   */
  method Register(registry: seq<string>) returns (portNr: int, hasToken: bool, registry': seq<string>)
    ensures hasToken <==> ParsePorts(registry) == []
    ensures ParsePorts(registry) == [] ==> portNr == FirstPort
    ensures ParsePorts(registry) != [] ==>
      portNr == Wrap64(ParsePorts(registry)[|ParsePorts(registry)| - 1] + 1)
    ensures registry' == Registered(registry)
    ensures ParsePorts(registry') == ParsePorts(registry) + [portNr]
  {
    portNr := FirstPort;
    var ports := ReadPorts(registry);
    hasToken := false;
    if |ports| == 0 {
      hasToken := true;
    } else {
      portNr := Wrap64(ports[|ports| - 1] + 1);
    }
    assert portNr == NewPort(ports);
    registry' := registry + [IntToString(portNr)];
    RegisteredReadsBack(registry);
  }

  /** Appending a port above the last keeps a registry strictly increasing. */
  lemma AppendKeepsIncreasing(ports: seq<int>, p: int)
    requires StrictlyIncreasing(ports) && (ports != [] ==> ports[|ports| - 1] < p)
    ensures StrictlyIncreasing(ports + [p])
  {
  }

  /** Registering keeps an increasing registry increasing while the last port is below the largest `int`. */
  lemma RegistrationKeepsIncreasing(lines: seq<string>)
    requires StrictlyIncreasing(ParsePorts(lines))
    requires ParsePorts(lines) != [] ==> ParsePorts(lines)[|ParsePorts(lines)| - 1] < MaxInt64
    ensures StrictlyIncreasing(ParsePorts(Registered(lines)))
    ensures |ParsePorts(Registered(lines))| == |ParsePorts(lines)| + 1
  {
    var ports := ParsePorts(lines);
    RegisteredReadsBack(lines);
    if ports != [] {
      var last := ports[|ports| - 1];
      PortsComeFromLines(lines);
      assert last in ports;
      assert NewPort(ports) == last + 1;
    }
    AppendKeepsIncreasing(ports, NewPort(ports));
  }

  /** The registry file after `n` nodes have registered one after another, starting from an empty `ports.txt`. */
  function RegistryAfter(n: nat): seq<string> {
    if n == 0 then [] else Registered(RegistryAfter(n - 1))
  }

  /** A consecutive registry hands the next node the next port. */
  lemma NextConsecutivePort(ports: seq<int>)
    requires ConsecutiveFromFirst(ports) && FirstPort + |ports| <= MaxInt64
    ensures NewPort(ports) == FirstPort + |ports|
  {
    if ports != [] {
      assert ports[|ports| - 1] == FirstPort + |ports| - 1;
    }
  }

  /** The ports 50000, 50001, ..., n of them. */
  function ConsecutivePorts(n: nat): (ports: seq<int>)
    ensures |ports| == n && ConsecutiveFromFirst(ports)
  {
    seq(n, i => FirstPort + i)
  }

  lemma ConsecutivePortsGrow(n: nat)
    ensures ConsecutivePorts(n + 1) == ConsecutivePorts(n) + [FirstPort + n]
  {
  }

  /** Registering into a consecutive registry appends the next consecutive port. */
  lemma RegistrationKeepsConsecutive(lines: seq<string>, n: nat)
    requires ParsePorts(lines) == ConsecutivePorts(n) && FirstPort + n <= MaxInt64
    ensures ParsePorts(Registered(lines)) == ConsecutivePorts(n + 1)
  {
    NextConsecutivePort(ParsePorts(lines));
    RegisteredReadsBack(lines);
    ConsecutivePortsGrow(n);
  }

  lemma {:induction false} RegistryStaysConsecutive(n: nat)
    requires FirstPort + n <= MaxInt64
    ensures ParsePorts(RegistryAfter(n)) == ConsecutivePorts(n)
  {
    if n > 0 {
      RegistryStaysConsecutive(n - 1);
      RegistrationKeepsConsecutive(RegistryAfter(n - 1), n - 1);
    }
  }

  /**
   * Sequential registration keeps the registry consecutive from 50000 (hence
   * strictly increasing), and only the first registrant finds it empty, so
   * only the first starts with the token.
   */
  lemma SequentialRegistration(n: nat)
    requires FirstPort + n <= MaxInt64
    ensures |ParsePorts(RegistryAfter(n))| == n
    ensures ConsecutiveFromFirst(ParsePorts(RegistryAfter(n)))
    ensures StrictlyIncreasing(ParsePorts(RegistryAfter(n)))
    ensures ParsePorts(RegistryAfter(n)) == [] <==> n == 0
  {
    RegistryStaysConsecutive(n);
  }
}
