# Token-ring mutual exclusion: a Dafny model of one node

The repository runs one process per ring member. Each process registers its
port in a shared file `ports.txt`, serves a `PassToken` call, and keeps
forwarding a single token to the next registered port. A node performs its
critical section (one line in a log file) only when the token arrives while it
wants the section. This project models the sequential core of `node.go`:

- **Membership** (`Membership.dfy`): `findIndex` as a search loop proved
  against the function `IndexOf`. The successor choice of `dialNextInLine`:
  next port in registry order, wrapping to the first, and the first port when
  the node's own port is not registered.
- **Registry reading** (`Ports.dfy`, `Decimal.dfy`): `readPorts` as a loop over
  the file's lines proved against `ParsePorts`. It keeps, in file order, the
  value of every line that `strconv.Atoi` accepts (an optional sign, decimal
  digits, within 64 bits) and skips the rest.
- **Registration** (`Registration.dfy`): the part of `main` that chooses the
  port and the initial token. An empty registry gives port 50000 and the token.
  Otherwise the port is the last port plus one (with Go's 64-bit wrap-around)
  and there is no token. The port is appended as a decimal line, and every later
  snapshot reads it back.
- **Node state machine** (`TokenNode.dfy`): the `node` record as a class
  `Node` with `portNr`, `nextPortNr`, `hasToken` and `wantsToPerform`. It also
  has a ghost `audit` sequence: the ports named by the critical-section records
  the node has written. `PassToken`, `DialNextInLine`, the request flag and one
  turn of the forwarding loop are methods. Each is proved to move the state by
  a pure transition function (`Received`, `Dialled`, `Requested`). Lemmas state
  what the source promises about those functions.
- **Ring** (`Ring.dfy`): the whole system as a value: the registry, one
  `NodeState` per member, and the shared critical-section log. It is built from
  the same transition functions. A successful hand-off moves the only token to
  the successor, and repeated hand-offs visit members in registry order. A
  member that wants the critical section performs it within one round. A ring
  bootstrapped by sequential registration starts with exactly one holder, the
  first registrant.
- `Circular.dfy` holds arithmetic on ring positions. `Wrappers.dfy` holds the
  `Option` type.

The sender clears `hasToken` only after the remote `PassToken` has succeeded
(node.go:80), not before the call. A dial or call that returns an error ends
the process (`log.Fatalf`, node.go:67 and 75). The model reports that as
`CallFailed` and leaves the sender's token where the code leaves it, with
`nextPortNr` already updated.

## Model

| member | source | states |
|---|---|---|
| `Decimal.ParseInt` | node.go:161-165 | A parsed line always has a value within Go's 64-bit `int`. The empty line never parses. |
| `Decimal.ParseFormatRoundTrip` | node.go:100-103 | The decimal line a registering node writes for any 64-bit port is parsed back as exactly that port. |
| `Decimal.IntToString` | node.go:100-103 | The text `logger.Println` writes for a port: decimal digits with no leading zero (except for 0 itself), preceded by `-` for a negative value. `ParseFormatRoundTrip` is its inverse. |
| `Decimal.Wrap64` | node.go:102 | `last + 1` in Go's `int`: the result is in 64-bit range, equals the exact sum when that is in range, and differs from it by a multiple of 2^64. |
| `Membership.IndexOf` | node.go:143-150 | The result lies in [-1, len). It is -1 exactly when the target is absent. Otherwise it is the smallest index holding the target. |
| `Membership.FindIndex` | node.go:143-150 | The linear scan with early return computes `IndexOf`. |
| `Membership.SuccessorAt` | node.go:58-62 | The chosen successor is always a registered port. |
| `Membership.Successor` | node.go:57-62 | The port a node dials is always a registered port. |
| `Membership.SuccessorIsNextInRing` | node.go:57-62 | For a registered port at index i, the successor is `ports[(i+1) % len]`. The last entry wraps to `ports[0]`. |
| `Membership.SuccessorOfAbsentPort` | node.go:57-62 | A port missing from the registry (index -1) dials `ports[0]`. |
| `Membership.SuccessorOfMember` | node.go:57-62 | In a registry without repeats, position k is found at k and hands on to position `(k+1) % len`. |
| `Membership.SuccessorAlone` | node.go:58-62 | The selection rule applied to a one-entry registry returns that entry (the self-loop). |
| `Ports.ParsePorts` | node.go:158-167 | A snapshot has at most one port per line. |
| `Ports.PortsComeFromLines` | node.go:160-167 | Every port in a snapshot is the value of some registry line that parses. |
| `Ports.ReadPorts` | node.go:153-170 | The scanner loop with `append` and `continue` computes `ParsePorts`. |
| `Ports.ParsePortsAppend` | node.go:160-167 | Reading lines `a + b` gives the ports of `a` followed by the ports of `b`, so order is file order. |
| `Ports.KeepsParsableSkipsOthers` | node.go:161-166 | A parsable line contributes exactly its value at its position. An unparsable line contributes nothing. |
| `Ports.AllParsableKeepsEveryLine` | node.go:160-167 | When every line parses, the snapshot has one port per line, equal to that line's value. |
| `Ports.NothingParsableYieldsNothing` | node.go:160-167 | A registry with no parsable line yields no ports. |
| `Registration.Register` | node.go:87-104 | The node takes the token iff the registry snapshot is empty. The port is 50000 for an empty snapshot, otherwise last + 1 (64-bit). The file gains one line, and its snapshot becomes the old snapshot plus the new port. |
| `Registration.NewPort` | node.go:97-102 | The chosen port is always a 64-bit `int`. It is 50000 for an empty snapshot, and last + 1 whenever that sum does not overflow. |
| `Registration.Registered` | node.go:100-103 | Registration appends exactly one line and keeps every existing line in place. |
| `Registration.RegisteredReadsBack` | node.go:97-104 | After registration the snapshot is the old snapshot with the new port appended. |
| `Registration.RegistrationKeepsIncreasing` | node.go:97-104 | Registering keeps a strictly increasing registry strictly increasing (below the largest `int`) and adds exactly one port. |
| `Registration.RegistrationKeepsConsecutive` | node.go:97-104 | Registering into the registry 50000 … 50000+n-1 gives 50000 … 50000+n. |
| `Registration.RegistryStaysConsecutive` | node.go:97-104 | After n sequential registrations the registry reads exactly 50000, 50001, …, 50000+n-1. |
| `Registration.SequentialRegistration` | node.go:97-104 | After n registrations in turn from an empty `ports.txt`, the registry is 50000, 50001, … (n ports, strictly increasing). It is empty only before the first registration, so only the first registrant starts with the token. |
| `TokenNode.DialTarget` | node.go:51-62 | There is no target exactly when fewer than two ports are registered. Otherwise the target is a registered port. |
| `TokenNode.Received` | node.go:31-40 | After the token arrives the node holds it and no longer wants the section. Its own port and its recorded successor are unchanged. |
| `TokenNode.ArrivalRecords` | node.go:31-34 | An arrival writes one record if the node wanted the section, and none otherwise. Every record names the node's own port. |
| `TokenNode.Requested` | node.go:119 | The request flag is set. The token and both ports are unchanged. |
| `TokenNode.Dialled` | node.go:51-80 | The sender's port and request are unchanged. With fewer than two ports nothing changes. Otherwise the recorded successor is a registered port, and the token stays exactly when the node held it and the call failed. |
| `TokenNode.DialOutcome` | node.go:51-80 | The outcome is `Alone` exactly when fewer than two ports are registered, and `Passed` exactly when there are two or more and the call succeeds. A dialled port is registered and is the successor the sender records. |
| `TokenNode.ArrivalSettlesState` | node.go:31-40 | After an arrival the node holds the token and wants nothing, whatever the prior state. `portNr` and `nextPortNr` are unchanged. Exactly one record naming the node is written iff it wanted the section. A second arrival changes nothing and writes nothing. |
| `TokenNode.RequestIsIdempotent` | node.go:119 | Requesting twice is requesting once, and a request does not touch the token or the successor. |
| `TokenNode.DialAloneChangesNothing` | node.go:51-55 | With fewer than two ports the state is unchanged and the outcome is `Alone` (no remote call). |
| `TokenNode.DialChoosesSuccessor` | node.go:57-80 | With two or more ports, `nextPortNr` becomes `ports[(i+1) % len]` for a registered port at i, and `ports[0]` for an absent one. The token is given away exactly when the call succeeds. `portNr` and the request are untouched. |
| `TokenNode.Node.constructor` | node.go:114 | A new node has its port, `nextPortNr = -1000`, the given token flag, no request and an empty audit. |
| `TokenNode.Node.RequestCriticalSection` | node.go:119 | Sets `wantsToPerform`; nothing else changes. |
| `TokenNode.Node.PassToken` | node.go:27-43 | The new state is `Received` of the old one: token held, no request, ports unchanged. The audit gains the arrival's records. |
| `TokenNode.Node.DialNextInLine` | node.go:45-83 | Reads the registry, then moves the state by `Dialled` and returns `DialOutcome`. The audit is unchanged. |
| `TokenNode.Node.ForwardTurn` | node.go:126-128 | One turn of the forwarding loop dials only while holding the token, and otherwise changes nothing. |
| `Ring.Forward` | node.go:73-80 | A turn of the forwarding loop keeps one node per port and the registry fixed, and only appends to the log. |
| `Ring.ForwardKeepsWellFormed` | node.go:73-80 | A turn keeps the ring well formed: every member keeps its own port, and the registry has no repeats. |
| `Ring.NonHolderDoesNothing` | node.go:126-128 | A member without the token forwards nothing. |
| `Ring.ForwardHandsOn` | node.go:73-80 | A successful hand-off by the only holder: the successor runs `PassToken`, the sender records it and drops the token, and the others are untouched. The log gains the successor's record, and the successor is the only holder. |
| `Ring.FailedCallKeepsToken` | node.go:73-76 | A call that fails before the successor's `PassToken` runs leaves the token with the sender and writes nothing. |
| `Ring.AnyTurnKeepsOneHolder` | node.go:45-83 | Any member's turn, with either outcome, keeps exactly one holder: the successor after a successful hand-off by the holder, the same holder otherwise. |
| `Ring.Circulate` | node.go:124-133 | Any number of successful forwarding turns keeps one node per port and the registry fixed, and the log append-only. |
| `Ring.CirculateKeepsWellFormed` | node.go:124-133 | Any number of successful forwarding turns keeps the ring well formed. |
| `Ring.CirculationVisitsInOrder` | node.go:57-62 | After k hand-offs from holder h, the only holder is at position `(h+k) % n`. |
| `Ring.AloneNeverForwards` | node.go:51-55 | A single-member ring never hands the token on. |
| `Ring.PendingSurvivesHandOff` | node.go:31-39 | A hand-off by the only holder to a member other than j leaves j's request pending. |
| `Ring.RequestPendingUntilArrival` | node.go:31-39 | A pending request survives every hand-off until the token reaches its member. |
| `Ring.ArrivalPerformsCriticalSection` | node.go:31-40 | The hand-off that reaches a member wanting the section makes it the only holder, clears its request and logs one record naming it. |
| `Ring.CriticalSectionWithinOneRound` | node.go:31-40 | With no failures, a requesting member performs its critical section within at most n hand-offs, logs a record naming its port, and then no longer wants the section. |
| `Ring.Bootstrapped` | node.go:97-114 | A ring built by sequential registration is well formed, with one node per registered port and an empty log. |
| `Ring.BootstrapHasOneHolder` | node.go:97-104 | In that ring the first registrant alone holds the token, and the ports run 50000, 50001, …. |
| `Ring.BootstrappedRingRoundRobin` | node.go:57-62 | In that ring, after k hand-offs the only holder is port `50000 + k % n`. |
| `Ring.ThreeNodeRound` | node.go:57-62 | Three registrants pass the token 50000 → 50001 → 50002 → 50000. |

## Left out

- gRPC dialling, serving and listening (node.go:65-76, 108-115, 135-138) are not modelled. They are network I/O. The remote `PassToken` is a boolean `callSucceeds` parameter, and at the ring level a successful call is the receiver's `Received` transition. A blocking dial (`grpc.WithBlock()` with no deadline) to an unreachable successor can keep retrying rather than return an error. The sender then waits while holding its mutex and the token. The model has no such hanging outcome: every attempt either succeeds or fails.
- The mutex, the two goroutines and their `time.Sleep` loops (node.go:24, 117-133) are not modelled. Each operation is one atomic step. The unguarded reads and writes of `hasToken` and `wantsToPerform` at node.go:119 and node.go:126 are not modelled.
- The ring model runs hand-offs one after another with a fixed registry. It does not interleave requests or new registrations with circulation. Liveness is counted in hand-offs, not time.
- File I/O on `ports.txt` and `log` (node.go:88-106, 154-157, 168, 172-182) is not modelled. The registry is the file's sequence of lines, already split by `bufio.Scanner`. The model assumes the file ends with a newline, as every line the program writes does. After a hand-edited last line without one, the next `logger.Println` would join that line instead of adding a new one. The log is the ghost `audit` of each node and the `log` of the ring. Each record is the port the message names, not the message text.
- Failures to open or create files (node.go:90-93, 154-157, 173-176) are not modelled. Every registry read and write succeeds.
- A missing registry file is fatal. `main` reads `ports.txt` (node.go:88) before it opens the file with `O_CREATE` (node.go:90), and `readPorts` calls `log.Fatalf` when the file does not exist (node.go:154-157). So the first node must start with an existing empty `ports.txt`. Registration here always starts from a registry that exists, possibly empty.
- `log.Fatalf` process termination (node.go:67, 75) is modelled as the `CallFailed` outcome. The model does not stop the node afterwards.
- `Ring.Forward`: a failed call (`callSucceeds = false`) is taken to mean the token was not delivered. A gRPC call can also return an error after the successor's `PassToken` has already run (node.go:31-40), for example when the connection drops before the reply. The successor then holds the token and has written its record, and the sender exits at node.go:75. The model does not include that outcome.
- `TokenNode.Dialled`: a registry with a repeated port (the registration race below can produce `[50000, 50000]`) makes `findIndex` return the first copy, so the node dials its own port (node.go:57-61). It does so while holding its mutex (node.go:46), so its own `PassToken` blocks at node.go:28 and the call never returns. The model still accepts `callSucceeds = true` there, which would give the token away to nobody. The ring results rule this case out by requiring a registry without repeats (`Ring.WellFormed`).
- `Decimal.ParseInt`: follows `strconv.Atoi` for an optional sign, decimal digits and the 64-bit range. It does not model Atoi's error values or messages.
- Inter-process races on the registry file, such as two nodes claiming the same port, are not modelled, because registration is sequential here.
- Console and standard-log printing (`fmt.Println`, `log.Printf`) is not modelled.
