/** What identifies a session: version and addresses of its packets, and their ports. */
module Flows {
  import opened Words

  datatype Hosts = Hosts(version: nat, saddr: seq<byte>, daddr: seq<byte>)
  datatype Flow = Flow(hosts: Hosts, sport: u16, dport: u16)

  /** The unions of the C structures hold 4 or 16 address bytes. */
  predicate Addressed(h: Hosts) {
    |h.saddr| == |h.daddr| == if h.version == 4 then 4 else 16
  }
}
