/** The escalation policy of Firewall.track_ips as functions on values: what one
    malicious flow does to the table of offenders, what a list of flows does, and
    the properties of both. The class in firewalls.dfy is proved against these. */
module Tracking {
  import opened Wrappers
  import opened Offenders

  /** One malicious flow, the tuple ((from_ip, to_ip), (from_port, to_port), protocol). */
  datatype Flow = Flow(fromIp: string, toIp: string, fromPort: int, toPort: int, protocol: string)

  /** What one flow did: registered a new offender, added an offense to an existing
      one, or handed the existing offender to create_rule and dropped it from the
      table. Records which branch the flow took and what create_rule was given. */
  datatype Outcome = NewOffender | AddedOffense | RuleCreated(offender: OffenderState)

  /** The offenders dictionary, keyed by connection. */
  type Table = map<string, OffenderState>

  /** A flow is outbound when it comes from the local address. */
  function IsOutbound(f: Flow, localIp: string): bool
  {
    f.fromIp == localIp
  }

  /** The port on the local side of the flow. */
  function LocalPort(f: Flow, localIp: string): int
  {
    if IsOutbound(f, localIp) then f.fromPort else f.toPort
  }

  /** The connection key "from_ip/to_ip". */
  function ConnectionKey(fromIp: string, toIp: string): string
  {
    fromIp + "/" + toIp
  }

  function FlowKey(f: Flow): string
  {
    ConnectionKey(f.fromIp, f.toIp)
  }

  function Entry(table: Table, key: string): Option<OffenderState>
  {
    if key in table then Some(table[key]) else None
  }

  /** The largest offense count a live offender can reach: an offender is escalated
      on the first flow that finds its count above naughtyCount, and a new one
      starts at 1. */
  function Cap(naughtyCount: int): (c: int)
    ensures c >= 1 && c > naughtyCount
    ensures naughtyCount >= 0 ==> c == naughtyCount + 1
  {
    if naughtyCount < 0 then 1 else naughtyCount + 1
  }

  /** The invariant of the table: every entry is stored under its own source key and
      its count lies between 1 and Cap(naughtyCount). */
  ghost predicate Tracked(table: Table, naughtyCount: int)
  {
    forall k :: k in table ==> table[k].src == k && 1 <= table[k].offenses <= Cap(naughtyCount)
  }

  /** One iteration of the loop in track_ips. */
  function Step(table: Table, f: Flow, localIp: string, naughtyCount: int): (r: (Table, Outcome))
    ensures var key := FlowKey(f);
      forall k :: k != key ==> Entry(r.0, k) == Entry(table, k)
    ensures var key := FlowKey(f);
      (key in r.0 <==> !(key in table && table[key].offenses > naughtyCount))
    ensures r.1.RuleCreated? <==> FlowKey(f) in table && table[FlowKey(f)].offenses > naughtyCount
    ensures r.1.RuleCreated? ==> r.1.offender == table[FlowKey(f)]
  {
    var outbound := IsOutbound(f, localIp);
    var port := LocalPort(f, localIp);
    var key := FlowKey(f);
    if key in table then
      if table[key].offenses > naughtyCount then
        (table - {key}, RuleCreated(table[key]))
      else
        (table[key := WithOffense(table[key], port, f.protocol)], AddedOffense)
    else
      (table[key := Registered(key, port, f.protocol, outbound)], NewOffender)
  }

  /** The whole of track_ips: the flows applied in order, with one outcome each. */
  function Run(table: Table, flows: seq<Flow>, localIp: string, naughtyCount: int): (r: (Table, seq<Outcome>))
    ensures |r.1| == |flows|
    decreases |flows|
  {
    if flows == [] then (table, [])
    else
      var (next, outcome) := Step(table, flows[0], localIp, naughtyCount);
      var (last, outcomes) := Run(next, flows[1..], localIp, naughtyCount);
      (last, [outcome] + outcomes)
  }

  /** The flows of a list that belong to one connection key, in order. */
  function Only(flows: seq<Flow>, key: string): (r: seq<Flow>)
    ensures |r| <= |flows|
    ensures forall i :: 0 <= i < |r| ==> FlowKey(r[i]) == key
  {
    if flows == [] then []
    else if FlowKey(flows[0]) == key then [flows[0]] + Only(flows[1..], key)
    else Only(flows[1..], key)
  }

  /** The (port, protocol) pairs that a list of flows would add. */
  function Pairs(flows: seq<Flow>, localIp: string): set<PortEntry>
  {
    if flows == [] then {}
    else {Pair(LocalPort(flows[0], localIp), flows[0].protocol)} + Pairs(flows[1..], localIp)
  }

  /** The offender built from a nonempty list of flows on one key, when none of them
      escalates: registered by the first, one more offense for each of the others. */
  function Accumulated(flows: seq<Flow>, localIp: string): OffenderState
    requires flows != []
  {
    var f := flows[0];
    OffenderState(FlowKey(f), |flows|,
                  InitialPorts(LocalPort(f, localIp), f.protocol) + Pairs(flows[1..], localIp),
                  IsOutbound(f, localIp))
  }

  ghost predicate AllOnKey(flows: seq<Flow>, key: string)
  {
    forall i :: 0 <= i < |flows| ==> FlowKey(flows[i]) == key
  }

  // ---------------------------------------------------------------------------
  // Direction, port and key

  /** Direction inference: a flow from the local address is outbound and is recorded
      under its source port; any other flow, whether it goes to the local address or
      involves it on neither side, is inbound and is recorded under its destination port. */
  lemma DirectionOfFlow(localIp: string, remote: string, to: string, fromPort: int, toPort: int, protocol: string)
    ensures IsOutbound(Flow(localIp, to, fromPort, toPort, protocol), localIp)
    ensures LocalPort(Flow(localIp, to, fromPort, toPort, protocol), localIp) == fromPort
    ensures remote != localIp ==> !IsOutbound(Flow(remote, to, fromPort, toPort, protocol), localIp)
    ensures remote != localIp ==> LocalPort(Flow(remote, to, fromPort, toPort, protocol), localIp) == toPort
  {
  }

  /** Two connections share a key only when they have the same source and the same
      destination, provided the source addresses hold no '/' (no IP address does). */
  lemma {:induction false} KeyInjective(a: string, b: string, c: string, d: string)
    requires '/' !in a && '/' !in c
    requires ConnectionKey(a, b) == ConnectionKey(c, d)
    ensures a == c && b == d
  {
    var k := ConnectionKey(a, b);
    assert k == a + "/" + b == c + "/" + d;
    SlashAt(a, b);
    SlashAt(c, d);
    if |a| < |c| {
      assert false;
    } else if |c| < |a| {
      assert false;
    }
    assert a == k[..|a|] == c;
    assert b == k[|a| + 1..] == d;
  }

  /** In a key whose source holds no '/', the first '/' follows the source. */
  lemma SlashAt(x: string, y: string)
    requires '/' !in x
    ensures (x + "/" + y)[|x|] == '/'
    ensures forall i :: 0 <= i < |x| ==> (x + "/" + y)[i] != '/'
  {
  }

  /** The key is directed: the two directions between two addresses are tracked as
      two separate offenders. */
  lemma KeyIsDirected(a: string, b: string)
    requires '/' !in a && '/' !in b && a != b
    ensures ConnectionKey(a, b) != ConnectionKey(b, a)
  {
    if ConnectionKey(a, b) == ConnectionKey(b, a) {
      KeyInjective(a, b, b, a);
    }
  }

  /** Without the no-'/' condition two different connections can share one key. */
  lemma KeyCollision()
    ensures ConnectionKey("a", "a/a") == ConnectionKey("a/a", "a")
  {
  }

  // ---------------------------------------------------------------------------
  // Invariant and sequencing

  /** One flow keeps every live count between 1 and Cap(naughtyCount). */
  lemma StepKeepsTracked(table: Table, f: Flow, localIp: string, naughtyCount: int)
    requires Tracked(table, naughtyCount)
    ensures Tracked(Step(table, f, localIp, naughtyCount).0, naughtyCount)
  {
  }

  /** So does any list of flows. */
  lemma {:induction false} RunKeepsTracked(table: Table, flows: seq<Flow>, localIp: string, naughtyCount: int)
    requires Tracked(table, naughtyCount)
    ensures Tracked(Run(table, flows, localIp, naughtyCount).0, naughtyCount)
    decreases |flows|
  {
    if flows != [] {
      StepKeepsTracked(table, flows[0], localIp, naughtyCount);
      RunKeepsTracked(Step(table, flows[0], localIp, naughtyCount).0, flows[1..], localIp, naughtyCount);
    }
  }

  /** Processing one more flow at the end is one more step on the table reached so far. */
  lemma {:induction false} RunSnoc(table: Table, flows: seq<Flow>, f: Flow, localIp: string, naughtyCount: int)
    ensures var (t, outcomes) := Run(table, flows, localIp, naughtyCount);
      var (t', outcome) := Step(t, f, localIp, naughtyCount);
      Run(table, flows + [f], localIp, naughtyCount) == (t', outcomes + [outcome])
    decreases |flows|
  {
    if flows == [] {
      assert flows + [f] == [f] && [f][1..] == [];
      var (t', outcome) := Step(table, f, localIp, naughtyCount);
      assert Run(table, flows, localIp, naughtyCount) == (table, []);
      assert Run(t', [f][1..], localIp, naughtyCount) == (t', []);
      assert Run(table, [f], localIp, naughtyCount) == (t', [outcome] + []);
      assert [] + [outcome] == [outcome] + [];
    } else {
      var g := flows[0];
      var (next, outcome) := Step(table, g, localIp, naughtyCount);
      assert (flows + [f])[0] == g;
      assert (flows + [f])[1..] == flows[1..] + [f];
      RunSnoc(next, flows[1..], f, localIp, naughtyCount);
      var (t, outcomes) := Run(next, flows[1..], localIp, naughtyCount);
      assert Run(table, flows, localIp, naughtyCount) == (t, [outcome] + outcomes);
      var (t', last) := Step(t, f, localIp, naughtyCount);
      assert Run(table, flows + [f], localIp, naughtyCount) == (t', [outcome] + (outcomes + [last]));
      assert [outcome] + (outcomes + [last]) == ([outcome] + outcomes) + [last];
    }
  }

  /** Keys are independent: the entry for a key after a list of flows depends only on
      its entry before and on the flows that carry that key. */
  lemma {:induction false} RunOnKey(t1: Table, t2: Table, flows: seq<Flow>, key: string, localIp: string, naughtyCount: int)
    requires Entry(t1, key) == Entry(t2, key)
    ensures Entry(Run(t1, flows, localIp, naughtyCount).0, key)
         == Entry(Run(t2, Only(flows, key), localIp, naughtyCount).0, key)
    decreases |flows|
  {
    if flows != [] {
      var f := flows[0];
      var s1 := Step(t1, f, localIp, naughtyCount).0;
      if FlowKey(f) == key {
        var s2 := Step(t2, f, localIp, naughtyCount).0;
        assert Only(flows, key) == [f] + Only(flows[1..], key);
        assert ([f] + Only(flows[1..], key))[1..] == Only(flows[1..], key);
        assert Entry(s1, key) == Entry(s2, key);
        RunOnKey(s1, s2, flows[1..], key, localIp, naughtyCount);
      } else {
        assert Only(flows, key) == Only(flows[1..], key);
        RunOnKey(s1, t2, flows[1..], key, localIp, naughtyCount);
      }
    }
  }

  // ---------------------------------------------------------------------------
  // Threshold timing on one key

  /** While its count stays at or below naughtyCount before each flow, an offender
      gains one offense and one (port, protocol) pair per flow, and nothing else in
      the table changes. */
  lemma {:induction false} Reoffending(table: Table, flows: seq<Flow>, key: string, localIp: string, naughtyCount: int)
    requires key in table && AllOnKey(flows, key)
    requires flows != [] ==> table[key].offenses + |flows| <= naughtyCount + 1
    ensures Run(table, flows, localIp, naughtyCount).0
         == table[key := table[key].(offenses := table[key].offenses + |flows|,
                                     portMappings := table[key].portMappings + Pairs(flows, localIp))]
    ensures forall i :: 0 <= i < |flows| ==> Run(table, flows, localIp, naughtyCount).1[i] == AddedOffense
    decreases |flows|
  {
    var o := table[key];
    if flows == [] {
      assert o.portMappings + {} == o.portMappings;
      assert o.(offenses := o.offenses + 0, portMappings := o.portMappings + {}) == o;
    } else {
      var f := flows[0];
      var (next, outcome) := Step(table, f, localIp, naughtyCount);
      assert FlowKey(f) == key;
      var o1 := WithOffense(o, LocalPort(f, localIp), f.protocol);
      assert next == table[key := o1];
      assert outcome == AddedOffense;
      assert AllOnKey(flows[1..], key) by {
        forall i | 0 <= i < |flows[1..]| ensures FlowKey(flows[1..][i]) == key {
          assert flows[1..][i] == flows[i + 1];
        }
      }
      Reoffending(next, flows[1..], key, localIp, naughtyCount);
      assert o1.portMappings + Pairs(flows[1..], localIp) == o.portMappings + Pairs(flows, localIp);
    }
  }

  /** For a key not in the table, flows 1 to Cap(naughtyCount) on that key register it
      and then count: the count equals the number of flows, the port set is the
      first flow's port and protocol plus a pair for each later flow. */
  lemma {:induction false} FirstFlows(table: Table, flows: seq<Flow>, key: string, localIp: string, naughtyCount: int)
    requires key !in table && AllOnKey(flows, key)
    requires 1 <= |flows| <= Cap(naughtyCount)
    ensures Run(table, flows, localIp, naughtyCount).0 == table[key := Accumulated(flows, localIp)]
    ensures Run(table, flows, localIp, naughtyCount).1[0] == NewOffender
    ensures forall i :: 1 <= i < |flows| ==> Run(table, flows, localIp, naughtyCount).1[i] == AddedOffense
  {
    var f := flows[0];
    var first := Registered(key, LocalPort(f, localIp), f.protocol, IsOutbound(f, localIp));
    var next := table[key := first];
    var rest := Run(next, flows[1..], localIp, naughtyCount);
    assert Run(table, flows, localIp, naughtyCount) == (rest.0, [NewOffender] + rest.1) by {
      assert FlowKey(f) == key;
      assert Step(table, f, localIp, naughtyCount) == (next, NewOffender);
    }
    assert AllOnKey(flows[1..], key) by {
      forall i | 0 <= i < |flows[1..]| ensures FlowKey(flows[1..][i]) == key {
        assert flows[1..][i] == flows[i + 1];
      }
    }
    Reoffending(next, flows[1..], key, localIp, naughtyCount);
    var grown := first.(offenses := 1 + |flows[1..]|, portMappings := first.portMappings + Pairs(flows[1..], localIp));
    assert rest.0 == table[key := Accumulated(flows, localIp)] by {
      assert rest.0 == next[key := grown];
      assert grown == Accumulated(flows, localIp);
      assert next[key := grown] == table[key := grown];
    }
  }

  /** The flow after those escalates: it hands the accumulated offender, without its
      own port, to create_rule and leaves the key absent again. */
  lemma EscalatesAfterCap(table: Table, flows: seq<Flow>, key: string, localIp: string, naughtyCount: int)
    requires key !in table && AllOnKey(flows, key)
    requires |flows| == Cap(naughtyCount) + 1
    ensures Run(table, flows, localIp, naughtyCount).0 == table
    ensures Run(table, flows, localIp, naughtyCount).1[|flows| - 1]
         == RuleCreated(Accumulated(flows[..|flows| - 1], localIp))
  {
    var m := |flows| - 1;
    var prefix := flows[..m];
    assert flows == prefix + [flows[m]];
    assert AllOnKey(prefix, key) by {
      forall i | 0 <= i < |prefix| ensures FlowKey(prefix[i]) == key {
        assert prefix[i] == flows[i];
      }
    }
    FirstFlows(table, prefix, key, localIp, naughtyCount);
    RunSnoc(table, prefix, flows[m], localIp, naughtyCount);
    assert table[key := Accumulated(prefix, localIp)] - {key} == table;
  }

  /** And the flow after that starts a fresh offender with count 1. */
  lemma RestartsAfterEscalation(table: Table, flows: seq<Flow>, key: string, localIp: string, naughtyCount: int)
    requires key !in table && AllOnKey(flows, key)
    requires |flows| == Cap(naughtyCount) + 2
    ensures var f := flows[|flows| - 1];
      Run(table, flows, localIp, naughtyCount).0
        == table[key := Registered(key, LocalPort(f, localIp), f.protocol, IsOutbound(f, localIp))]
    ensures Run(table, flows, localIp, naughtyCount).1[|flows| - 1] == NewOffender
  {
    var m := |flows| - 1;
    var prefix := flows[..m];
    assert flows == prefix + [flows[m]];
    assert AllOnKey(prefix, key) by {
      forall i | 0 <= i < |prefix| ensures FlowKey(prefix[i]) == key {
        assert prefix[i] == flows[i];
      }
    }
    EscalatesAfterCap(table, prefix, key, localIp, naughtyCount);
    RunSnoc(table, prefix, flows[m], localIp, naughtyCount);
  }

  // ---------------------------------------------------------------------------
  // Threshold timing on one key among flows on other keys

  /** In any list of flows, while the flows on one key that started absent number
      at most Cap(naughtyCount), its offender counts exactly those flows. */
  lemma CountsOnKey(table: Table, flows: seq<Flow>, key: string, localIp: string, naughtyCount: int)
    requires key !in table
    requires 1 <= |Only(flows, key)| <= Cap(naughtyCount)
    ensures Entry(Run(table, flows, localIp, naughtyCount).0, key) == Some(Accumulated(Only(flows, key), localIp))
  {
    RunOnKey(table, table, flows, key, localIp, naughtyCount);
    FirstFlows(table, Only(flows, key), key, localIp, naughtyCount);
  }

  /** The next flow on that key escalates, whatever came in between on other keys,
      and the key is absent afterwards. */
  lemma AbsentAfterEscalation(table: Table, flows: seq<Flow>, key: string, localIp: string, naughtyCount: int)
    requires key !in table
    requires |Only(flows, key)| == Cap(naughtyCount) + 1
    ensures key !in Run(table, flows, localIp, naughtyCount).0
  {
    RunOnKey(table, table, flows, key, localIp, naughtyCount);
    EscalatesAfterCap(table, Only(flows, key), key, localIp, naughtyCount);
  }

  /** A concrete run with naughtyCount 1 and local address 10.0.0.5: the repeated
      outbound flow is registered, then counted a second time, and only the third
      copy escalates, with the port and protocol as separate entries beside the pair. */
  lemma RepeatedOutboundFlow()
    ensures var f := Flow("10.0.0.5", "1.2.3.4", 4444, 80, "TCP");
      var o := OffenderState("10.0.0.5/1.2.3.4", 2, {Port(4444), Proto("TCP"), Pair(4444, "TCP")}, true);
      && Run(map[], [f, f], "10.0.0.5", 1) == (map["10.0.0.5/1.2.3.4" := o], [NewOffender, AddedOffense])
      && Run(map[], [f, f, f], "10.0.0.5", 1) == (map[], [NewOffender, AddedOffense, RuleCreated(o)])
  {
    var f := Flow("10.0.0.5", "1.2.3.4", 4444, 80, "TCP");
    var key := "10.0.0.5/1.2.3.4";
    assert FlowKey(f) == key;
    assert AllOnKey([f, f], key);
    assert AllOnKey([f, f, f], key);
    assert [f, f][1..] == [f] && [f][1..] == [];
    assert Pairs([f], "10.0.0.5") == {Pair(4444, "TCP")};
    var o := OffenderState(key, 2, {Port(4444), Proto("TCP"), Pair(4444, "TCP")}, true);
    assert LocalPort(f, "10.0.0.5") == 4444 && IsOutbound(f, "10.0.0.5");
    assert Accumulated([f, f], "10.0.0.5") == o;
    FirstFlows(map[], [f, f], key, "10.0.0.5", 1);
    var two := Run(map[], [f, f], "10.0.0.5", 1).1;
    assert two == [NewOffender, AddedOffense] by {
      assert |two| == 2 && two[0] == NewOffender && two[1] == AddedOffense;
    }
    assert [f, f, f][..2] == [f, f];
    EscalatesAfterCap(map[], [f, f, f], key, "10.0.0.5", 1);
    assert [f, f, f] == [f, f] + [f];
    RunSnoc(map[], [f, f], f, "10.0.0.5", 1);
    var t2 := map[key := o];
    assert Step(t2, f, "10.0.0.5", 1) == (map[], RuleCreated(o)) by {
      assert t2 - {key} == map[];
    }
    assert two + [RuleCreated(o)] == [NewOffender, AddedOffense, RuleCreated(o)];
  }
}
