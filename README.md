# deepdos offense tracker — a Dafny model

deepdos watches a network interface, has a classifier label flows malicious, and
means to hand the malicious ones to a firewall object. Its main loop calls
`track_flows` (deepdos/__main__.py:84), a method the firewall does not have; the
firewall's method is `track_ips`. The firewall keeps one *offender*
per directed connection `from_ip/to_ip`. Each offender records how many malicious
flows it has produced, the (port, protocol) entries it used, and whether the local
host was the source. When a connection already has more than `naughty_count`
offenses and one more flow arrives, the offender goes to the backend's
`create_rule` and leaves the table.

This project models that engine (`firewall.py`) and proves properties of it:

- `offenders.dfy`, module `Offenders`: the `Offender` record. It is a class whose
  `AddOffense` updates its fields in place. Its values are described by
  `OffenderState` and by the functions `Registered` and `WithOffense`.
- `tracking.dfy`, module `Tracking`: the policy as functions on values.
  `IsOutbound`, `LocalPort` and `ConnectionKey` compute the direction, the port and
  the key. `Step` is one iteration of the loop in `track_ips` and `Run` is the whole
  loop. The lemmas cover the invariant on live counts, key independence, threshold
  timing and key injectivity.
- `firewalls.dfy`, module `Firewalls`: the `Firewall` class. Its `offenders` field is
  a `map<string, Offender>` that `TrackFlow` and `TrackIps` change in place. Both are
  proved equal to `Step` and `Run` on the abstract table `Contents()`. The module also
  holds the `create_firewall` factory (`SelectBackend`, `CreateFirewall`) and the
  no-op `CreateRule` of the iptables backend.
- `wrappers.dfy`, module `Wrappers`: `Option` and `Result`.

The local address comes from `interface_data[2]["address"]` in the source. It is a
parameter (`localIp`) of `TrackFlow` and `TrackIps` here. `naughty_count` is a field
of the firewall, as in the source.

## Behaviour of the code that the model keeps

- **Threshold timing.** The escalation test `offenses > naughty_count` runs before
  the count is raised. So for a fresh key the flows 1 to `Cap(n)` are counted
  (`Cap(n) = n + 1` for `n >= 0`, and 1 for a negative `n`). Flow `Cap(n) + 1`
  escalates and flow `Cap(n) + 2` starts again at 1 (`FirstFlows`, `EscalatesAfterCap`,
  `RestartsAfterEscalation`). `RepeatedOutboundFlow` shows this on a concrete run:
  with a threshold of 1 the second identical flow only adds an offense, and the
  third one escalates.
- **The escalating flow is not recorded.** Its port never reaches the offender
  handed to `create_rule`.
- **Initial port set.** `set((port, protocol))` makes the two-element set
  `{port, protocol}`, not a set holding the pair. Later offenses add pairs. The
  element type `PortEntry = Port | Proto | Pair` reproduces this.
- **`create_rule` does nothing.** It returns right after its log line. Escalation
  therefore only removes the offender, and `input_banned` and `output_banned` stay
  empty (`Firewall.Valid`).
- **The factory's error text is not formatted.** It names `{firewall_type}`
  literally, so every unsupported type gets the same message.
- **Keys need slash-free addresses.** Two different connections can share a key when
  an address contains `/` (`KeyCollision`). Injectivity holds when the source
  addresses hold no `/`, and IP addresses never do.

The code that would build and install a drop rule and record the ban minute
(firewall.py:131-160) sits after the `return` of `create_rule` and cannot be
reached. `remove_rules` (firewall.py:162-163) is `pass`. Nothing removes or expires
a ban.

## Model

| member | source | states |
|---|---|---|
| `Offenders.InitialPorts` | firewall.py:18 | the first port set holds exactly two entries, the port and the protocol on their own, and no pair |
| `Offenders.Registered` | firewall.py:15-19 | a new offender has one offense, the given key and direction, and exactly two port entries, the port and the protocol, with no (port, protocol) pair |
| `Offenders.WithOffense` | firewall.py:21-26 | one more offense; every earlier entry is kept and exactly the pair (port, protocol) is added; source and direction unchanged |
| `Offenders.Offender.constructor` | firewall.py:15-19 | the new object's fields equal `Registered` of the arguments |
| `Offenders.Offender.AddOffense` | firewall.py:21-26 | the fields after the call equal `WithOffense` of the fields before |
| `Tracking.Cap` | firewall.py:97 | the largest live count is at least 1, exceeds `naughty_count`, and is `naughty_count + 1` when that is not negative |
| `Tracking.DirectionOfFlow` | firewall.py:88-89 | about `IsOutbound` and `LocalPort`: a flow from the local address, to any address, is outbound with its source port; any other flow, to the local address or to neither side, is inbound with its destination port |
| `Tracking.KeyInjective` | firewall.py:90 | about `ConnectionKey`: equal keys mean equal source and destination when the sources hold no '/' |
| `Tracking.KeyIsDirected` | firewall.py:90 | A→B and B→A get different keys, so they are tracked separately |
| `Tracking.KeyCollision` | firewall.py:90 | without the no-'/' condition two different connections share a key |
| `Tracking.Step` | firewall.py:87-108 | one flow changes only the entry under its own key; that key is absent afterwards exactly when it was present with a count above `naughty_count`, which is exactly when the old offender goes to `create_rule` |
| `Tracking.Run` | firewall.py:83-108 | the loop gives one outcome per flow |
| `Tracking.StepKeepsTracked` | firewall.py:93-108 | one flow keeps every entry under its own key with a count between 1 and `Cap(naughty_count)` |
| `Tracking.RunKeepsTracked` | firewall.py:83-108 | any list of flows keeps that invariant |
| `Tracking.RunSnoc` | firewall.py:83 | the flows are taken in order: one more flow at the end is one more step on the table reached |
| `Tracking.RunOnKey` | firewall.py:90-108 | the entry for a key after any list of flows depends only on its entry before and on the flows that carry that key |
| `Tracking.Reoffending` | firewall.py:97-102 | while the count stays at or below `naughty_count` before each flow, each flow adds one offense and its pair; the rest of the table is unchanged |
| `Tracking.FirstFlows` | firewall.py:93-108 | for an absent key, flows 1 to `Cap(n)` register and count it: the count equals the number of flows, and the port set is the first port and protocol plus one pair per later flow |
| `Tracking.EscalatesAfterCap` | firewall.py:96-99 | flow `Cap(n) + 1` hands the accumulated offender, without its own port, to `create_rule` and leaves the table as before the first flow |
| `Tracking.RestartsAfterEscalation` | firewall.py:104-108 | flow `Cap(n) + 2` registers a fresh offender with count 1 |
| `Tracking.CountsOnKey` | firewall.py:83-108 | with flows on other keys interleaved, the offender for a key counts exactly the flows on that key, up to `Cap(n)` |
| `Tracking.AbsentAfterEscalation` | firewall.py:93-99 | with flows on other keys interleaved, the key is absent after its `Cap(n) + 1`-th flow |
| `Tracking.RepeatedOutboundFlow` | firewall.py:88-108 | with threshold 1 and local address 10.0.0.5, a repeated outbound flow is registered, then counted a second time, and escalated by its third copy with its port set {4444, "TCP", (4444, "TCP")} |
| `Firewalls.SelectBackend` | firewall.py:53-59 | the iptables backend exactly for "linux"; otherwise the same ValueError message whatever was entered |
| `Firewalls.Firewall.constructor` | firewall.py:34-42 | the firewall starts with the given interface and threshold, no offenders and empty ban tables |
| `Firewalls.Firewall.CreateRule` | firewall.py:123-129 | the reachable part of `create_rule` changes neither the firewall nor the offender |
| `Firewalls.Firewall.TrackFlow` | firewall.py:84-108 | one loop iteration updates the live offenders exactly as `Step` does and keeps the firewall's invariant |
| `Firewalls.Firewall.TrackIps` | firewall.py:75-108 | the loop leaves the offenders (`Contents()`) equal to `Run` of the list; the ban tables stay empty |
| `Firewalls.CreateFirewall` | firewall.py:44-59 | a fresh firewall with no offenders for "linux", the ValueError for any other type |

## Left out

- `IPtable.__init__` (firewall.py:116-121) builds `iptc` table and chain objects, which are calls into a foreign library. The backend is represented only by the `Backend` value `IPtable`.
- The code after `return` in `IPtable.create_rule` (firewall.py:131-160) is unreachable. It uses `iptc` rules and matches, `time.time()`, and an attribute `offender.outgoing` that does not exist.
- `remove_rules` (firewall.py:162-163) is `pass`. The abstract `Firewall.create_rule` and `remove_rules` (firewall.py:61-73) have no behaviour of their own.
- The lookup `interface_data[ip_version]["address"]` (firewall.py:79-80) and the field `ip_version` are left out. The local address is a parameter instead, so the `KeyError` the lookup could raise is not modelled.
- Firewalls.Firewall.TrackIps: returns one outcome per flow, saying which branch the flow took and, on escalation, which offender went to `create_rule`. The source returns `None`. It prints a line when it adds an offense (firewall.py:101) and `create_rule` prints one (firewall.py:128), but registration prints nothing; the printed text is not modelled.
- Ports are modelled as integers and protocols as strings. The producer of the flow tuples is not part of this model.
- `deepdos/__main__.py` and `args.py` are capture, subprocess, file and command-line I/O, so they are not part of this model.
- Concurrency is left out: the source runs single-threaded.
