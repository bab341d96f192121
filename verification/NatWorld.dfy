/** The network between a STUN client and an honest STUN server: a NAT (or a firewall, or
    nothing) that keeps state, and a server with two addresses and two ports that answers a
    binding request from the address the CHANGE-REQUEST flags ask for (section 10.1 of
    RFC 3489).  Every probe that the path does not filter is delivered. */
module NatWorld {
  import opened Common

  datatype Endpoint = Endpoint(ip: int, port: int)

  /** How far a mapping or a filter looks at the peer (sections 4.3 and 4.4 of RFC 5780). */
  datatype Dependence = Independent | ByAddress | ByAddressAndPort

  datatype Path =
    | Blocked                                           // no UDP at all
    | Direct(filter: Dependence)                        // a public address, maybe behind a firewall
    | Translated(mapping: Dependence, filter: Dependence)

  /** What selects a mapping of the one internal endpoint the client uses. */
  datatype Key = AnyPeer | PeerAddress(ip: int) | Peer(endpoint: Endpoint)

  function KeyFor(mapping: Dependence, peer: Endpoint): Key {
    match mapping
    case Independent => AnyPeer
    case ByAddress => PeerAddress(peer.ip)
    case ByAddressAndPort => Peer(peer)
  }

  /** Whether a packet from `source` may enter through a mapping that sent to `contacted`. */
  predicate Passes(filter: Dependence, contacted: set<Endpoint>, source: Endpoint) {
    match filter
    case Independent => true
    case ByAddress => exists e | e in contacted :: e.ip == source.ip
    case ByAddressAndPort => source in contacted
  }

  /** An honest server, and which of its optional attributes and features it has. */
  datatype Server = Server(
    ipA: int, ipB: int, portA: int, portB: int,
    sendsMapped: bool, sendsChanged: bool, sendsOther: bool, rejectsChange: bool)
  {
    predicate Honest() {
      ipA != ipB && portA != portB
    }

    predicate Listens(e: Endpoint) {
      e.ip in {ipA, ipB} && e.port in {portA, portB}
    }

    function OtherIp(ip: int): int {
      if ip == ipA then ipB else ipA
    }

    function OtherPort(port: int): int {
      if port == portA then portB else portA
    }

    /** The address that differs from e in both components. */
    function Opposite(e: Endpoint): Endpoint {
      Endpoint(OtherIp(e.ip), OtherPort(e.port))
    }
  }

  /** A binding response as newResponse presents it. */
  datatype Response = Response(
    mapped: Option<Endpoint>, changed: Option<Endpoint>, other: Option<Endpoint>,
    source: Option<Endpoint>, identical: bool)

  datatype Probed = Reply(resp: Response) | Silence | Failed

  class World {
    const server: Server
    const path: Path
    const local: Endpoint
    const localIps: set<int>
    /** The external endpoint the NAT gives to each mapping. */
    const external: Key -> Endpoint
    /** A NAT that presents every inbound packet as coming from the address last sent to. */
    const rewrites: bool

    /** The mappings in use, each with the peers it has sent to. */
    var contacted: map<Endpoint, set<Endpoint>>

    constructor (server: Server, path: Path, local: Endpoint, localIps: set<int>, external: Key -> Endpoint,
                 rewrites: bool)
      ensures this.server == server && this.path == path && this.local == local && this.localIps == localIps
      ensures this.external == external && this.rewrites == rewrites
      ensures contacted == map[]
    {
      this.server := server;
      this.path := path;
      this.local := local;
      this.localIps := localIps;
      this.external := external;
      this.rewrites := rewrites;
      contacted := map[];
    }

    /** Different mappings get different external endpoints, and none is a local address. */
    ghost predicate Valid() {
      && server.Honest()
      && local.ip in localIps
      && (forall k, k' :: k != k' ==> external(k) != external(k'))
      && (path.Translated? ==> forall k :: external(k).ip !in localIps)
      && (rewrites ==> path.Translated?)
    }

    /** The source address under which the server sees a request to `peer`. */
    function SeenAs(peer: Endpoint): Endpoint {
      if path.Translated? then external(KeyFor(path.mapping, peer)) else local
    }

    function ContactedBy(mapping: Endpoint): set<Endpoint>
      reads this
    {
      if mapping in contacted then contacted[mapping] else {}
    }

    /** Where the server answers from. */
    function AnswersFrom(dst: Endpoint, changeIp: bool, changePort: bool): Endpoint {
      Endpoint(if changeIp then server.OtherIp(dst.ip) else dst.ip,
               if changePort then server.OtherPort(dst.port) else dst.port)
    }

    function ResponseTo(dst: Endpoint, source: Endpoint): Response {
      var seen := SeenAs(dst);
      Response(if server.sendsMapped then Some(seen) else None,
               if server.sendsChanged then Some(server.Opposite(dst)) else None,
               if server.sendsOther then Some(server.Opposite(dst)) else None,
               Some(if rewrites then dst else source),
               server.sendsMapped && seen.ip in localIps)
    }

    /** The client's view of one request: the answer the path lets through, if any. */
    function Answer(dst: Endpoint, changeIp: bool, changePort: bool): Probed
      reads this
    {
      var peers := ContactedBy(SeenAs(dst)) + {dst};
      var source := AnswersFrom(dst, changeIp, changePort);
      if path.Blocked? || !server.Listens(dst) then Silence
      // an error response comes from dst, which every filter lets in
      else if (changeIp || changePort) && server.rejectsChange then Failed
      else if Passes(path.filter, peers, source) then Reply(ResponseTo(dst, source))
      else Silence
    }

    /** sendBindingReq: a request with the given CHANGE-REQUEST flags leaves through the
        mapping for dst and opens its filter for dst. */
    method SendBindingRequest(dst: Endpoint, changeIp: bool, changePort: bool) returns (p: Probed)
      modifies this
      ensures p == old(Answer(dst, changeIp, changePort))
      ensures contacted == if path.Blocked? then old(contacted)
                           else old(contacted)[SeenAs(dst) := old(ContactedBy(SeenAs(dst))) + {dst}]
    {
      p := Answer(dst, changeIp, changePort);
      if !path.Blocked? {
        var seen := SeenAs(dst);
        contacted := contacted[seen := ContactedBy(seen) + {dst}];
      }
    }
  }
}
