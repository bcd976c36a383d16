/** The Offender record of firewall.py: one directed connection that has been
    reported malicious, how often, on which ports, and in which direction. */
module Offenders {

  /** An element of an offender's port_mappings set. The set made when the offender
      is registered is built from the tuple (port, protocol) itself, so it holds the
      port and the protocol as two separate elements; every later offense adds the
      pair. The three shapes are kept apart so that this is reproduced exactly. */
  datatype PortEntry = Port(port: int) | Proto(protocol: string) | Pair(port: int, protocol: string)

  /** The value of an Offender's fields at one moment. */
  datatype OffenderState = OffenderState(src: string, offenses: int, portMappings: set<PortEntry>, outbound: bool)

  /** The port set of a newly registered offender: the port and the protocol as two
      elements, and no (port, protocol) pair. */
  function InitialPorts(port: int, protocol: string): (s: set<PortEntry>)
    ensures |s| == 2
    ensures Port(port) in s && Proto(protocol) in s
    ensures forall e :: e in s ==> !e.Pair?
  {
    {Port(port), Proto(protocol)}
  }

  /** The state of a newly registered offender. */
  function Registered(src: string, port: int, protocol: string, outbound: bool): (o: OffenderState)
    ensures o.src == src && o.outbound == outbound
    ensures o.offenses == 1
    ensures Port(port) in o.portMappings && Proto(protocol) in o.portMappings
    ensures Pair(port, protocol) !in o.portMappings && |o.portMappings| == 2
  {
    OffenderState(src, 1, InitialPorts(port, protocol), outbound)
  }

  /** The state after one more offense on (port, protocol): one more offense, every
      earlier entry kept, exactly that pair added, source and direction untouched. */
  function WithOffense(o: OffenderState, port: int, protocol: string): (r: OffenderState)
    ensures r.offenses == o.offenses + 1
    ensures o.portMappings <= r.portMappings && Pair(port, protocol) in r.portMappings
    ensures r.portMappings - o.portMappings <= {Pair(port, protocol)}
    ensures r.src == o.src && r.outbound == o.outbound
  {
    o.(offenses := o.offenses + 1, portMappings := o.portMappings + {Pair(port, protocol)})
  }

  /** An offender object; add_offense updates its fields in place. */
  class Offender {
    var src: string
    var offenses: int
    var portMappings: set<PortEntry>
    var outbound: bool

    /** The current value of the fields. */
    function State(): OffenderState
      reads this
    {
      OffenderState(src, offenses, portMappings, outbound)
    }

    constructor (src: string, port: int, protocol: string, outbound: bool)
      ensures State() == Registered(src, port, protocol, outbound)
    {
      this.src := src;
      this.offenses := 1;
      this.portMappings := InitialPorts(port, protocol);
      this.outbound := outbound;
    }

    method AddOffense(port: int, protocol: string)
      modifies this
      ensures State() == WithOffense(old(State()), port, protocol)
    {
      offenses := offenses + 1;
      portMappings := portMappings + {Pair(port, protocol)};
    }
  }
}
