/** The Firewall object of firewall.py: the live offenders dictionary that
    track_ips updates in place, the banned-address dictionaries, and the factory
    that picks the platform backend. */
module Firewalls {
  import opened Wrappers
  import opened Offenders
  import opened Tracking

  /** The platform backends; the Linux iptables one is the only one there is. */
  datatype Backend = IPtable

  /** The ValueError message for an unsupported firewall type. The string is not
      formatted, so it names "{firewall_type}" literally, not the value entered. */
  const UnsupportedPlatform := "linux is the only supported operating system for firewall mode. You entered: {firewall_type}"

  /** The choice made by create_firewall: the iptables backend for "linux", the
      same ValueError for every other string. */
  function SelectBackend(firewallType: string): (r: Result<Backend, string>)
    ensures r.Success? <==> firewallType == "linux"
    ensures r.Failure? ==> r.error == UnsupportedPlatform
  {
    if firewallType == "linux" then Success(IPtable) else Failure(UnsupportedPlatform)
  }

  class Firewall {
    const interface: string
    const naughtyCount: int
    const backend: Backend
    /** The live offenders, keyed by "from_ip/to_ip". */
    var offenders: map<string, Offender>
    /** Banned addresses per chain with the minute of the ban; nothing writes them. */
    var inputBanned: map<string, int>
    var outputBanned: map<string, int>

    /** The values of the live offenders. */
    function Contents(): Table
      reads this, offenders.Values
    {
      map k | k in offenders :: offenders[k].State()
    }

    /** Every key has its own Offender object, the table keeps its invariant, and no
        address has been banned. */
    ghost predicate Valid()
      reads this, offenders.Values
    {
      && (forall k, k' :: k in offenders && k' in offenders && k != k' ==> offenders[k] != offenders[k'])
      && Tracked(Contents(), naughtyCount)
      && inputBanned == map[] && outputBanned == map[]
    }

    constructor (interface: string, naughtyCount: int, backend: Backend)
      ensures Valid()
      ensures this.interface == interface && this.naughtyCount == naughtyCount && this.backend == backend
      ensures offenders == map[] && Contents() == map[]
    {
      this.interface := interface;
      this.naughtyCount := naughtyCount;
      this.backend := backend;
      this.offenders := map[];
      this.inputBanned := map[];
      this.outputBanned := map[];
    }

    /** The rule creation of the iptables backend: it returns before doing anything. */
    method CreateRule(offender: Offender)
      ensures unchanged(this, offender)
    {
    }

    /** One iteration of track_ips on one malicious flow. */
    method TrackFlow(f: Flow, localIp: string) returns (outcome: Outcome)
      requires Valid()
      modifies this, offenders.Values
      ensures Valid()
      ensures (Contents(), outcome) == Step(old(Contents()), f, localIp, naughtyCount)
      ensures fresh(offenders.Values - old(offenders.Values))
    {
      var outbound := IsOutbound(f, localIp);
      var port := LocalPort(f, localIp);
      var connection := ConnectionKey(f.fromIp, f.toIp);
      ghost var before := Contents();
      if connection in offenders {
        var offender := offenders[connection];
        if offender.offenses > naughtyCount {
          outcome := RuleCreated(offender.State());
          CreateRule(offender);
          offenders := offenders - {connection};
          assert Contents() == before - {connection};
        } else {
          offender.AddOffense(port, f.protocol);
          outcome := AddedOffense;
          forall k | k in offenders && k != connection
            ensures offenders[k].State() == before[k]
          {
            assert offenders[k] != offender;
          }
          assert Contents() == before[connection := WithOffense(before[connection], port, f.protocol)];
        }
      } else {
        var offender := new Offender(connection, port, f.protocol, outbound);
        offenders := offenders[connection := offender];
        outcome := NewOffender;
        assert Contents() == before[connection := Registered(connection, port, f.protocol, outbound)];
      }
      StepKeepsTracked(before, f, localIp, naughtyCount);
    }

    /** track_ips: every flow of the list in order. Returns one outcome per flow: the
        branch the flow took and, on escalation, the offender handed to create_rule.
        The source returns None. */
    method TrackIps(connectionList: seq<Flow>, localIp: string) returns (log: seq<Outcome>)
      requires Valid()
      modifies this, offenders.Values
      ensures Valid()
      ensures (Contents(), log) == Run(old(Contents()), connectionList, localIp, naughtyCount)
      ensures inputBanned == map[] && outputBanned == map[]
    {
      ghost var start := Contents();
      log := [];
      var i := 0;
      while i < |connectionList|
        invariant 0 <= i <= |connectionList|
        invariant Valid()
        invariant fresh(offenders.Values - old(offenders.Values))
        invariant (Contents(), log) == Run(start, connectionList[..i], localIp, naughtyCount)
      {
        var outcome := TrackFlow(connectionList[i], localIp);
        RunSnoc(start, connectionList[..i], connectionList[i], localIp, naughtyCount);
        assert connectionList[..i + 1] == connectionList[..i] + [connectionList[i]];
        log := log + [outcome];
        i := i + 1;
      }
      assert connectionList[..i] == connectionList;
    }
  }

  /** create_firewall: a new firewall with no offenders for "linux", the ValueError
      for any other type. */
  method CreateFirewall(interface: string, firewallType: string, naughtyCount: int)
    returns (r: Result<Firewall, string>)
    ensures r.Success? <==> firewallType == "linux"
    ensures r.Failure? ==> r.error == UnsupportedPlatform
    ensures r.Success? ==> var fw := r.value;
      && fresh(fw) && fw.Valid() && fw.Contents() == map[]
      && fw.interface == interface && fw.naughtyCount == naughtyCount && fw.backend == IPtable
  {
    match SelectBackend(firewallType)
    case Success(backend) =>
      var fw := new Firewall(interface, naughtyCount, backend);
      r := Success(fw);
    case Failure(message) =>
      r := Failure(message);
  }
}
