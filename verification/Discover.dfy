/** NAT classification: discover and behaviorTest of libcore/stun/discover.go with the test
    wrappers of libcore/stun/tests.go, run against any network of NatWorld. */
module Discover {
  import opened Common
  import opened NatWorld

  datatype NatType =
    | NatError | NatUnknown | NatNone | NatBlocked | NatFull | NatSymmetric
    | NatRestricted | NatPortRestricted | SymmetricUdpFirewall

  datatype BehaviorType = Unknown | Endpoints | Addr | AddrAndPort

  datatype NatBehavior = NatBehavior(mappingType: BehaviorType, filteringType: BehaviorType)

  datatype Failure = RequestFailed | NoMappedAddress | NoServerAddress | NoChangedAddress
                   | WrongResponseAddress | UdpBlocked | NotBehindNat

  /** What the classification should say about a path. */
  function Verdict(path: Path, server: Server): NatType {
    if path.Blocked? then NatBlocked
    else if !server.sendsMapped || !(server.sendsChanged || server.sendsOther) || server.rejectsChange then NatError
    else match path
         case Direct(filter) => if filter.Independent? then NatNone else SymmetricUdpFirewall
         case Translated(mapping, filter) =>
           if filter.Independent? then NatFull
           else if !mapping.Independent? then NatSymmetric
           else if filter.ByAddress? then NatRestricted
           else NatPortRestricted
  }

  /** The second half of discover: nothing came back from the other address, so the mapping and
      the filter are told apart by probing it. */
  method ProbeOtherAddress(world: World, addr: Endpoint, caddr: Endpoint, mapped: Endpoint)
    returns (verdict: NatType, fakeFullCone: bool, failure: Option<Failure>)
    requires world.Valid() && world.server.Listens(addr) && caddr == world.server.Opposite(addr)
    requires world.path.Translated? && !world.path.filter.Independent? && world.server.sendsMapped
    requires !world.server.rejectsChange && mapped == world.SeenAs(addr)
    requires world.contacted.Keys == {world.SeenAs(addr)} && world.ContactedBy(world.SeenAs(addr)) == {addr}
    modifies world
    ensures failure == None && verdict ==
            if !world.path.mapping.Independent? then NatSymmetric
            else if world.path.filter.ByAddress? then NatRestricted else NatPortRestricted
    ensures fakeFullCone <==> world.rewrites && verdict == NatRestricted
  {
    fakeFullCone := false;
    var probed := world.SendBindingRequest(caddr, false, false);  // test1, to the other address
    if probed.Failed? {
      return NatError, fakeFullCone, Some(RequestFailed);
    }
    if probed.Silence? {
      return NatUnknown, fakeFullCone, None;
    }
    var resp := probed.resp;
    if resp.source.None? {
      return NatError, fakeFullCone, Some(NoServerAddress);
    }
    if resp.source.value.ip != caddr.ip || resp.source.value.port != caddr.port {
      fakeFullCone := true;
    }
    if resp.mapped.None? {
      return NatError, fakeFullCone, Some(NoMappedAddress);
    }
    if mapped.ip == resp.mapped.value.ip && mapped.port == resp.mapped.value.port {
      probed := world.SendBindingRequest(caddr, false, true);  // test3
      if probed.Failed? {
        return NatError, fakeFullCone, Some(RequestFailed);
      }
      if probed.Silence? {
        return NatPortRestricted, fakeFullCone, None;
      }
      resp := probed.resp;
      if resp.source.None? {
        return NatError, fakeFullCone, Some(NoServerAddress);
      }
      if resp.source.value.ip != caddr.ip || resp.source.value.port == caddr.port {
        fakeFullCone := true;
      }
      return NatRestricted, fakeFullCone, None;
    }
    return NatSymmetric, fakeFullCone, None;
  }

  /** The decision of discover, against every network and every server.  The flag for a fake
      full cone is raised exactly when a NAT rewrites the source of a changed answer it lets in. */
  method Discover(world: World, addr: Endpoint)
    returns (verdict: NatType, host: Option<Endpoint>, fakeFullCone: bool, failure: Option<Failure>)
    requires world.Valid() && world.server.Listens(addr)
    requires world.contacted == map[]  // a socket of its own
    modifies world
    ensures verdict == Verdict(world.path, world.server)
    ensures verdict != NatError ==> failure == None
    ensures verdict == NatError ==>
              failure == Some(if !world.server.sendsMapped then NoMappedAddress
                              else if !world.server.sendsChanged && !world.server.sendsOther then NoChangedAddress
                              else RequestFailed)
    ensures host == if world.path.Blocked? || !world.server.sendsMapped then None else Some(world.SeenAs(addr))
    ensures fakeFullCone <==> world.rewrites && verdict in {NatFull, NatRestricted}
  {
    fakeFullCone := false;
    var probed := world.SendBindingRequest(addr, false, false);  // test1
    if probed.Failed? {
      return NatError, None, fakeFullCone, Some(RequestFailed);
    }
    if probed.Silence? {
      return NatBlocked, None, fakeFullCone, None;
    }
    var resp := probed.resp;
    var identical, changedAddr := resp.identical, resp.changed;
    if resp.mapped.None? {
      return NatError, None, fakeFullCone, Some(NoMappedAddress);
    }
    var mapped := resp.mapped.value;
    if resp.source.None? {
      return NatError, Some(mapped), fakeFullCone, Some(NoServerAddress);
    }
    if resp.source.value.ip != addr.ip || resp.source.value.port != addr.port {
      fakeFullCone := true;
    }
    if changedAddr.None? {
      changedAddr := resp.other;
    }
    if changedAddr.None? {
      return NatError, Some(mapped), fakeFullCone, Some(NoChangedAddress);
    }
    probed := world.SendBindingRequest(addr, true, true);  // test2
    if probed.Failed? {
      return NatError, Some(mapped), fakeFullCone, Some(RequestFailed);
    }
    if probed.Reply? && probed.resp.source.Some? &&
       (probed.resp.source.value.ip == addr.ip || probed.resp.source.value.port == addr.port) {
      fakeFullCone := true;
    }
    if identical {
      if probed.Silence? {
        return SymmetricUdpFirewall, Some(mapped), fakeFullCone, None;
      }
      return NatNone, Some(mapped), fakeFullCone, None;
    }
    if probed.Reply? {
      return NatFull, Some(mapped), fakeFullCone, None;
    }
    var flag;
    verdict, flag, failure := ProbeOtherAddress(world, addr, changedAddr.value, mapped);
    return verdict, Some(mapped), fakeFullCone || flag, failure;
  }

  // ---------------------------------------------------------------- RFC 5780 behaviour

  function TypeOf(d: Dependence): BehaviorType {
    match d
    case Independent => Endpoints
    case ByAddress => Addr
    case ByAddressAndPort => AddrAndPort
  }

  predicate AddrCompare(host: Endpoint, addr: Endpoint, ipChange: bool, portChange: bool) {
    var isIpChange := host.ip != addr.ip;
    var isPortChange := host.port != addr.port;
    isIpChange == ipChange && isPortChange == portChange
  }

  /** sendWithLog: a request whose answer must come from the address asked for. */
  method SendWithLog(world: World, addr: Endpoint, changeIp: bool, changePort: bool)
    returns (resp: Option<Response>, failure: Option<Failure>)
    modifies world
    ensures world.contacted == if world.path.Blocked? then old(world.contacted)
                               else old(world.contacted)[world.SeenAs(addr) :=
                                      old(world.ContactedBy(world.SeenAs(addr))) + {addr}]
    ensures match old(world.Answer(addr, changeIp, changePort))
            case Failed => resp == None && failure == Some(RequestFailed)
            case Silence => resp == None && failure == if changeIp || changePort then None else Some(UdpBlocked)
            case Reply(r) =>
              if r.source.Some? && AddrCompare(r.source.value, addr, changeIp, changePort)
              then resp == Some(r) && failure == None
              else resp == None && failure == Some(if r.source.Some? then WrongResponseAddress else NoServerAddress)
  {
    var probed := world.SendBindingRequest(addr, changeIp, changePort);
    if probed.Failed? {
      return None, Some(RequestFailed);
    }
    if probed.Silence? && !changeIp && !changePort {
      return None, Some(UdpBlocked);
    }
    if probed.Reply? && probed.resp.source.None? {
      return None, Some(NoServerAddress);
    }
    if probed.Reply? && !AddrCompare(probed.resp.source.value, addr, changeIp, changePort) {
      return None, Some(WrongResponseAddress);
    }
    return if probed.Reply? then Some(probed.resp) else None, None;
  }

  /** The filtering class that behaviorTest reports, Unknown when a test fails.  Its Test2 has
      already sent to (other address, same port), from the mapping under test exactly when
      the mapping is endpoint-independent. */
  function FilteringVerdict(path: Path, server: Server, rewrites: bool): BehaviorType
    requires path.Translated?
  {
    var reached := path.mapping.Independent? && path.filter.ByAddress?;
    if server.rejectsChange then Unknown
    else if path.filter.Independent? || reached then (if rewrites then Unknown else Endpoints)
    else if path.filter.ByAddress? then (if rewrites then Unknown else Addr)
    else AddrAndPort
  }

  /** The second half of behaviorTest: Test4 and Test5, after the mapping tests have sent from
      the mapping of addr to addr, and to the other address when there is but one mapping. */
  method FilteringTest(world: World, addr: Endpoint, mappingOnly: NatBehavior)
    returns (behavior: Option<NatBehavior>, failure: Option<Failure>)
    requires world.Valid() && world.server.Listens(addr) && world.path.Translated?
    requires world.ContactedBy(world.SeenAs(addr)) ==
             if world.path.mapping.Independent? then {addr, Endpoint(world.server.OtherIp(addr.ip), addr.port)}
             else {addr}
    requires mappingOnly.filteringType == Unknown
    modifies world
    ensures behavior == Some(mappingOnly.(filteringType := FilteringVerdict(world.path, world.server, world.rewrites)))
    ensures failure == if behavior.value.filteringType != Unknown then None
                       else Some(if world.server.rejectsChange then RequestFailed else WrongResponseAddress)
  {
    var natBehavior := mappingOnly;
    // Test4: an answer from the other address and port
    var resp4, failed := SendWithLog(world, addr, true, true);
    if failed.Some? {
      return Some(natBehavior), failed;
    }
    if resp4.Some? {
      natBehavior := natBehavior.(filteringType := Endpoints);
    }
    // Test5: an answer from the other port
    if natBehavior.filteringType == Unknown {
      var resp5;
      resp5, failed := SendWithLog(world, addr, false, true);
      if failed.Some? {
        return Some(natBehavior), failed;
      }
      natBehavior := natBehavior.(filteringType := if resp5.Some? then Addr else AddrAndPort);
    }
    return Some(natBehavior), None;
  }

  /** behaviorTest, against every network and every server. */
  method BehaviorTest(world: World, addr: Endpoint) returns (behavior: Option<NatBehavior>, failure: Option<Failure>)
    requires world.Valid() && world.server.Listens(addr)
    requires world.contacted == map[]  // a socket of its own
    modifies world
    ensures !world.path.Translated? || !world.server.sendsMapped
            || !(world.server.sendsOther || world.server.sendsChanged) ==>
              && behavior == None
              && failure == Some(if world.path.Blocked? then UdpBlocked
                                 else if !world.server.sendsMapped then NoMappedAddress
                                 else if world.path.Direct? then NotBehindNat else NoChangedAddress)
    ensures world.path.Translated? && world.server.sendsMapped
            && (world.server.sendsOther || world.server.sendsChanged) ==>
              && behavior == Some(NatBehavior(TypeOf(world.path.mapping),
                                              FilteringVerdict(world.path, world.server, world.rewrites)))
              && failure == if behavior.value.filteringType != Unknown then None
                            else Some(if world.server.rejectsChange then RequestFailed else WrongResponseAddress)
  {
    var natBehavior := NatBehavior(Unknown, Unknown);
    // Test1: the address asked for
    var resp1, failed := SendWithLog(world, addr, false, false);
    if failed.Some? {
      return None, failed;
    }
    if resp1.value.mapped.None? {
      return None, Some(NoMappedAddress);
    }
    if resp1.value.identical {
      return None, Some(NotBehindNat);
    }
    var otherAddr := resp1.value.other;
    if otherAddr.None? {
      if resp1.value.changed.Some? {
        otherAddr := resp1.value.changed;
      } else {
        return None, Some(NoChangedAddress);
      }
    }
    // Test2: the other address, the same port
    var tmpAddr := Endpoint(otherAddr.value.ip, addr.port);
    var resp2;
    resp2, failed := SendWithLog(world, tmpAddr, false, false);
    if failed.Some? {
      return None, failed;
    }
    if resp2.value.mapped.None? {
      return None, Some(NoMappedAddress);
    }
    if resp2.value.mapped.value == resp1.value.mapped.value {
      natBehavior := natBehavior.(mappingType := Endpoints);
    }
    // Test3: the other address and port
    if natBehavior.mappingType == Unknown {
      tmpAddr := tmpAddr.(port := otherAddr.value.port);
      var resp3;
      resp3, failed := SendWithLog(world, tmpAddr, false, false);
      if failed.Some? {
        return None, failed;
      }
      if resp3.value.mapped.None? {
        return None, Some(NoMappedAddress);
      }
      natBehavior := natBehavior.(mappingType :=
        if resp3.value.mapped.value == resp2.value.mapped.value then Addr else AddrAndPort);
    }
    assert natBehavior == NatBehavior(TypeOf(world.path.mapping), Unknown);
    assert world.ContactedBy(world.SeenAs(addr)) ==
           if world.path.mapping.Independent? then {addr, Endpoint(world.server.OtherIp(addr.ip), addr.port)}
           else {addr};
    behavior, failure := FilteringTest(world, addr, natBehavior);
  }

  // ---------------------------------------------------------------- what the verdicts mean

  /** All requests from the internal endpoint are mapped to one external endpoint. */
  ghost predicate OneMapping(mapping: Dependence, external: Key -> Endpoint) {
    forall d, d' :: external(KeyFor(mapping, d)) == external(KeyFor(mapping, d'))
  }

  /** Any host may send to the mapped endpoint. */
  ghost predicate AnyHostMaySend(filter: Dependence) {
    forall contacted, source :: Passes(filter, contacted, source)
  }

  /** Exactly the hosts that were sent to before may send, from any port. */
  ghost predicate ContactedHostsMaySend(filter: Dependence) {
    forall contacted: set<Endpoint>, source: Endpoint ::
      Passes(filter, contacted, source) <==> exists e :: e in contacted && e.ip == source.ip
  }

  /** Exactly the host and port pairs that were sent to before may send. */
  ghost predicate ContactedPortsMaySend(filter: Dependence) {
    forall contacted: set<Endpoint>, source: Endpoint :: Passes(filter, contacted, source) <==> source in contacted
  }

  ghost predicate Injective(external: Key -> Endpoint) {
    forall k, k' :: k != k' ==> external(k) != external(k')
  }

  /** The three filters are told apart by one contacted peer and a source with its address. */
  lemma FilterMeaning(filter: Dependence)
    ensures AnyHostMaySend(filter) <==> filter.Independent?
    ensures ContactedHostsMaySend(filter) <==> filter.ByAddress?
    ensures ContactedPortsMaySend(filter) <==> filter.ByAddressAndPort?
  {
    var here, there := Endpoint(0, 0), Endpoint(0, 1);
    var none: set<Endpoint> := {};
    assert Passes(filter, none, here) <==> filter.Independent?;
    assert here in {here} && here.ip == there.ip;
    assert Passes(filter, {here}, there) <==> !filter.ByAddressAndPort?;
  }

  lemma MappingMeaning(mapping: Dependence, external: Key -> Endpoint)
    requires Injective(external)
    ensures OneMapping(mapping, external) <==> mapping.Independent?
  {
    var here, there := Endpoint(0, 0), Endpoint(1, 0);
    assert KeyFor(mapping, here) == KeyFor(mapping, there) <==> mapping.Independent?;
  }

  predicate Usable(server: Server) {
    server.sendsMapped && (server.sendsChanged || server.sendsOther) && !server.rejectsChange
  }

  /** The verdicts in the words of section 5 of RFC 3489.  The verdict full cone looks at the
      filter only: it is the full cone of that section exactly when there is one mapping. */
  lemma VerdictMeaning(path: Path, server: Server, external: Key -> Endpoint)
    requires path.Translated? && Usable(server) && Injective(external)
    ensures Verdict(path, server) == NatFull <==> AnyHostMaySend(path.filter)
    ensures Verdict(path, server) == NatRestricted <==>
              OneMapping(path.mapping, external) && ContactedHostsMaySend(path.filter)
    ensures Verdict(path, server) == NatPortRestricted <==>
              OneMapping(path.mapping, external) && ContactedPortsMaySend(path.filter)
    ensures Verdict(path, server) == NatSymmetric <==>
              !OneMapping(path.mapping, external) && !AnyHostMaySend(path.filter)
    ensures Verdict(path, server) == NatFull ==>
              (OneMapping(path.mapping, external) && AnyHostMaySend(path.filter) <==> path.mapping.Independent?)
  {
    FilterMeaning(path.filter);
    MappingMeaning(path.mapping, external);
  }

  /** On a public address the verdicts tell whether a firewall stands before it; and whatever the
      path, nothing at all means that UDP is blocked, and an error that the server is no help. */
  lemma PublicVerdictMeaning(path: Path, server: Server)
    ensures path.Direct? && Usable(server) ==>
              && (Verdict(path, server) == NatNone <==> AnyHostMaySend(path.filter))
              && (Verdict(path, server) == SymmetricUdpFirewall <==> !AnyHostMaySend(path.filter))
    ensures Verdict(path, server) == NatBlocked <==> path.Blocked?
    ensures Verdict(path, server) == NatError <==> !path.Blocked? && !Usable(server)
    ensures Verdict(path, server) != NatUnknown
    ensures !path.Direct? ==> Verdict(path, server) != NatNone && Verdict(path, server) != SymmetricUdpFirewall
  {
    if path.Direct? { FilterMeaning(path.filter); }
  }

  /** When answers come from a rewritten address no test can tell a filter that lets them in. */
  lemma RewritingHidesFilter(path: Path, server: Server)
    requires path.Translated? && Usable(server)
    ensures FilteringVerdict(path, server, true) ==
            if ContactedPortsMaySend(path.filter) then AddrAndPort else Unknown
  {
    FilterMeaning(path.filter);
  }

  /** The filtering verdict is exact unless the mapping is endpoint-independent and the filter
      address-dependent: Test2 has then opened the other address, and the NAT looks as if it
      did not filter.  The verdict is never stricter than the NAT. */
  lemma FilteringVerdictIsExact(path: Path, server: Server)
    requires path.Translated? && Usable(server)
    ensures FilteringVerdict(path, server, false) == TypeOf(path.filter) <==>
              !(path.mapping.Independent? && ContactedHostsMaySend(path.filter))
    ensures FilteringVerdict(path, server, false) != TypeOf(path.filter) ==>
              FilteringVerdict(path, server, false) == Endpoints
  {
    FilterMeaning(path.filter);
  }
}
