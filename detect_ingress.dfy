/** Ingress detection: for every LoadBalancer service, pick the port through which
    the service is most likely reached from outside the cluster and advertise it
    as an IngressInfo (host, TLS flag, port).

    The Kubernetes lookup of LoadBalancer services is not modelled: its result is
    the input sequence of DetectIngressBehavior. A pointer to the selected port is
    modelled by its index in the service's port list. */
module DetectIngress {
  import opened Wrappers

  /** Kubernetes declares port numbers as 32-bit integers. */
  newtype Int32 = x: int | -0x8000_0000 <= x < 0x8000_0000

  /** The fields of a Kubernetes ServicePort that the selection reads. */
  datatype ServicePort = ServicePort(name: string, port: Int32, protocol: string)

  /** A LoadBalancer service: its name, namespace and declared ports. */
  datatype Service = Service(name: string, namespace: string, ports: seq<ServicePort>)

  /** The advertised ingress of one service. */
  datatype IngressInfo = IngressInfo(host: string, useTls: bool, port: Int32)

  /** The five port filters, one constructor per closure. */
  datatype PortFilter = NamedHttps | Port443 | NamedHttp | Port80 | AnyPort

  /** The filters in priority order. */
  const PortFilters: seq<PortFilter> := [NamedHttps, Port443, NamedHttp, Port80, AnyPort]

  /** The five filter closures: two test the port's name, two its number, and
      the last accepts every port. */
  predicate Passes(f: PortFilter, p: ServicePort): (r: bool)
    ensures f == AnyPort ==> r
    ensures r && f != AnyPort ==> p.name == "https" || p.port == 443 || p.name == "http" || p.port == 80
  {
    match f
    case NamedHttps => p.name == "https"
    case Port443 => p.port == 443
    case NamedHttp => p.name == "http"
    case Port80 => p.port == 80
    case AnyPort => true
  }

  /** The test findTCPPort applies to each port, with Go's precedence:
      `&&` binds tighter than `||`, so an empty protocol passes every filter. */
  predicate Accepts(p: ServicePort, f: PortFilter): (r: bool)
    ensures p.protocol == "" ==> r
    ensures p.protocol == "TCP" ==> (r <==> Passes(f, p))
    ensures !TcpCompatible(p) ==> !r
  {
    p.protocol == "" || (p.protocol == "TCP" && Passes(f, p))
  }

  /** The reading "the transport is empty or TCP, and the filter holds". */
  predicate IntendedAccepts(p: ServicePort, f: PortFilter) {
    (p.protocol == "" || p.protocol == "TCP") && Passes(f, p)
  }

  /** A port whose protocol is unset or explicitly TCP. */
  predicate TcpCompatible(p: ServicePort) {
    p.protocol == "" || p.protocol == "TCP"
  }

  /** The index of the first port, in declared order, that filter `f` accepts. */
  function FirstAccepted(ports: seq<ServicePort>, f: PortFilter): (r: Option<nat>)
    ensures r.Some? ==> r.value < |ports| && Accepts(ports[r.value], f)
    ensures r.Some? ==> forall j :: 0 <= j < r.value ==> !Accepts(ports[j], f)
    ensures r.None? <==> forall j :: 0 <= j < |ports| ==> !Accepts(ports[j], f)
  {
    if ports == [] then None
    else if Accepts(ports[0], f) then Some(0)
    else
      match FirstAccepted(ports[1..], f)
      case None => None
      case Some(i) => Some(i + 1)
  }

  /** findTCPPort: scans the ports in order and returns the first one the filter
      accepts, or nothing. */
  method FindTcpPort(ports: seq<ServicePort>, f: PortFilter) returns (r: Option<nat>)
    ensures r == FirstAccepted(ports, f)
  {
    for i := 0 to |ports|
      invariant forall j :: 0 <= j < i ==> !Accepts(ports[j], f)
    {
      if Accepts(ports[i], f) {
        return Some(i);
      }
    }
    return None;
  }

  /** The port chosen by trying `filters` in order: the first filter that yields a
      port decides, and later filters are not consulted. */
  function SelectFrom(ports: seq<ServicePort>, filters: seq<PortFilter>): (r: Option<nat>)
    ensures r.Some? ==> r.value < |ports|
    ensures r.None? <==> forall k :: 0 <= k < |filters| ==> FirstAccepted(ports, filters[k]).None?
    ensures r.Some? ==> exists k :: 0 <= k < |filters| && r == FirstAccepted(ports, filters[k])
                                    && forall j :: 0 <= j < k ==> FirstAccepted(ports, filters[j]).None?
  {
    if filters == [] then None
    else
      match FirstAccepted(ports, filters[0])
      case Some(i) => Some(i)
      case None =>
        var r := SelectFrom(ports, filters[1..]);
        assert r.Some? ==> exists k :: 1 <= k < |filters| && r == FirstAccepted(ports, filters[k])
                                       && forall j :: 0 <= j < k ==> FirstAccepted(ports, filters[j]).None? by {
          if r.Some? {
            var k :| 0 <= k < |filters| - 1 && r == FirstAccepted(ports, filters[1..][k])
                     && forall j :: 0 <= j < k ==> FirstAccepted(ports, filters[1..][j]).None?;
            assert forall j :: 0 <= j < k + 1 ==> FirstAccepted(ports, filters[j]).None? by {
              forall j | 0 <= j < k + 1 ensures FirstAccepted(ports, filters[j]).None? {
                if j > 0 { assert filters[j] == filters[1..][j - 1]; }
              }
            }
          }
        }
        r
  }

  /** The port selected for a service's port list: the result of the first of
      the five filters, in priority order, that yields a port. */
  function SelectPort(ports: seq<ServicePort>): (r: Option<nat>)
    ensures r.Some? ==> r.value < |ports|
    ensures r.None? <==> forall k :: 0 <= k < |PortFilters| ==> FirstAccepted(ports, PortFilters[k]).None?
    ensures r.Some? ==> exists k :: 0 <= k < |PortFilters| && r == FirstAccepted(ports, PortFilters[k])
                                    && forall j :: 0 <= j < k ==> FirstAccepted(ports, PortFilters[j]).None?
  {
    SelectFrom(ports, PortFilters)
  }

  /** The record emitted for one service, or nothing when no port is selected. */
  function Entry(lb: Service): (r: Option<IngressInfo>)
    ensures r.Some? <==> exists i :: 0 <= i < |lb.ports| && TcpCompatible(lb.ports[i])
    ensures r.Some? ==> r.value.host == lb.name + "." + lb.namespace
    ensures r.Some? ==> (r.value.useTls <==> r.value.port == 443)
    ensures r.Some? ==> exists i :: 0 <= i < |lb.ports| && TcpCompatible(lb.ports[i])
                                    && r.value.port == lb.ports[i].port
    ensures r.Some? ==> SelectPort(lb.ports).Some?
                        && r.value.port == lb.ports[SelectPort(lb.ports).value].port
  {
    SelectedIffTcpCompatible(lb.ports);
    match SelectPort(lb.ports)
    case None => None
    case Some(i) =>
      SelectedPortIsTcpCompatible(lb.ports);
      var p := lb.ports[i];
      Some(IngressInfo(lb.name + "." + lb.namespace, p.port == 443, p.port))
  }

  /** The list of records emitted for `lbs`, in the order of the services. */
  function IngressFor(lbs: seq<Service>): (r: seq<IngressInfo>)
    ensures |r| <= |lbs|
  {
    if lbs == [] then []
    else
      var last := lbs[|lbs| - 1];
      IngressFor(lbs[..|lbs| - 1]) + (match Entry(last) case None => [] case Some(e) => [e])
  }

  /** detectIngressBehavior, after the LoadBalancer services have been listed. */
  method DetectIngressBehavior(loadBalancers: seq<Service>) returns (iis: seq<IngressInfo>)
    ensures iis == IngressFor(loadBalancers)
  {
    iis := [];
    for n := 0 to |loadBalancers|
      invariant iis == IngressFor(loadBalancers[..n])
    {
      assert loadBalancers[..n + 1][..n] == loadBalancers[..n];
      var lb := loadBalancers[n];
      var port: Option<nat> := None;
      var k := 0;
      while k < |PortFilters|
        invariant 0 <= k <= |PortFilters|
        invariant port == None
        invariant SelectPort(lb.ports) == SelectFrom(lb.ports, PortFilters[k..])
      {
        var p := FindTcpPort(lb.ports, PortFilters[k]);
        if p.Some? {
          port := p;
          break;
        }
        assert PortFilters[k..][1..] == PortFilters[k + 1..];
        k := k + 1;
      }
      if port.None? {
        continue;
      }
      var sp := lb.ports[port.value];
      iis := iis + [IngressInfo(lb.name + "." + lb.namespace, sp.port == 443, sp.port)];
    }
    assert loadBalancers[..|loadBalancers|] == loadBalancers;
  }

  // ---------------------------------------------------------------------------
  // Properties of the selection

  /** The selected port is TCP-compatible: a port whose protocol is neither
      unset nor "TCP" is never selected, under any filter. */
  lemma SelectedPortIsTcpCompatible(ports: seq<ServicePort>)
    ensures SelectPort(ports).Some? ==> TcpCompatible(ports[SelectPort(ports).value])
  {
  }

  /** A service's ports yield a selection iff one of them is TCP-compatible:
      the last filter accepts every such port. */
  lemma SelectedIffTcpCompatible(ports: seq<ServicePort>)
    ensures SelectPort(ports).Some? <==> exists i :: 0 <= i < |ports| && TcpCompatible(ports[i])
  {
    if i :| 0 <= i < |ports| && TcpCompatible(ports[i]) {
      assert Accepts(ports[i], AnyPort);
      assert FirstAccepted(ports, PortFilters[4]).Some?;
    }
    SelectedPortIsTcpCompatible(ports);
  }

  /** When some port has an unset protocol, the first ("https") filter already
      yields a port, so it decides: the result is the first port that has an
      unset protocol or is a TCP port named "https". */
  lemma EmptyProtocolDecidesFirstFilter(ports: seq<ServicePort>, i: nat)
    requires i < |ports| && ports[i].protocol == ""
    ensures SelectPort(ports) == FirstAccepted(ports, NamedHttps)
    ensures SelectPort(ports).Some? && SelectPort(ports).value <= i
    ensures var j := SelectPort(ports).value;
            ports[j].protocol == "" || (ports[j].protocol == "TCP" && ports[j].name == "https")
  {
  }

  /** The selected port satisfies the filter that selected it, and every
      filter of higher priority accepts no port at all. */
  lemma FiltersTriedInPriorityOrder(ports: seq<ServicePort>)
    requires SelectPort(ports).Some?
    ensures exists k :: 0 <= k < |PortFilters|
                        && Accepts(ports[SelectPort(ports).value], PortFilters[k])
                        && (forall j :: 0 <= j < k ==> forall q :: 0 <= q < |ports| ==> !Accepts(ports[q], PortFilters[j]))
  {
  }

  /** The two readings of line 16 differ exactly on ports with an unset
      protocol that fail the filter. */
  lemma AcceptsDiffersOnlyOnUnsetProtocol(p: ServicePort, f: PortFilter)
    ensures Accepts(p, f) <==> IntendedAccepts(p, f) || p.protocol == ""
    ensures Accepts(p, f) != IntendedAccepts(p, f) <==> p.protocol == "" && !Passes(f, p)
  {
  }

  /** A port list on which the precedence matters: as written, the metrics port
      with an unset protocol is selected by the "https" filter, although under the
      other reading that filter rejects it and accepts only the TCP port named
      "https". */
  lemma UnsetProtocolShadowsHttps()
    ensures var ports := [ServicePort("metrics", 9090, ""), ServicePort("https", 443, "TCP")];
            SelectPort(ports) == Some(0)
            && !IntendedAccepts(ports[0], NamedHttps)
            && IntendedAccepts(ports[1], NamedHttps)
  {
  }

  // ---------------------------------------------------------------------------
  // Properties of the emitted list

  /** The emitted list of a concatenation is the concatenation of the emitted
      lists: records keep the relative order of their services. */
  lemma {:induction false} IngressForAppend(a: seq<Service>, b: seq<Service>)
    ensures IngressFor(a + b) == IngressFor(a) + IngressFor(b)
    decreases |b|
  {
    if b == [] {
      assert a + b == a;
    } else {
      var b' := b[..|b| - 1];
      assert (a + b)[..|a + b| - 1] == a + b';
      assert (a + b)[|a + b| - 1] == b[|b| - 1];
      IngressForAppend(a, b');
    }
  }

  /** A record is emitted iff some service yields it. */
  lemma {:induction false} IngressForContains(lbs: seq<Service>, e: IngressInfo)
    ensures e in IngressFor(lbs) <==> exists i :: 0 <= i < |lbs| && Entry(lbs[i]) == Some(e)
  {
    if lbs != [] {
      var init := lbs[..|lbs| - 1];
      IngressForContains(init, e);
      if i :| 0 <= i < |lbs| && Entry(lbs[i]) == Some(e) {
        if i < |lbs| - 1 {
          assert lbs[i] == init[i];
        }
      }
      if j :| 0 <= j < |init| && Entry(init[j]) == Some(e) {
        assert lbs[j] == init[j];
      }
    }
  }

  // ---------------------------------------------------------------------------
  // Scenarios

  /** TLS is inferred from the port number alone: a TCP port named "https" on
      8443 is selected but advertised without TLS. */
  lemma HttpsNameOnNon443IsNotTls()
    ensures IngressFor([Service("web", "default", [ServicePort("https", 8443, "TCP")])])
         == [IngressInfo("web.default", false, 8443)]
  {
    var lb := Service("web", "default", [ServicePort("https", 8443, "TCP")]);
    assert [lb][..0] == [];
    assert FirstAccepted(lb.ports, PortFilters[0]) == Some(0);
    assert SelectPort(lb.ports) == Some(0);
    assert lb.name + "." + lb.namespace == "web.default";
    assert Entry(lb) == Some(IngressInfo("web.default", false, 8443));
  }

  /** Each filter scans the whole port list before the next is tried: a later
      port named "https" beats an earlier port 80. */
  lemma FilterPriorityBeatsPortOrder()
    ensures SelectPort([ServicePort("plain", 80, "TCP"), ServicePort("https", 8443, "TCP")]) == Some(1)
  {
  }

  /** A TCP port 443 not named "https" is selected by the second filter, ahead
      of an earlier port that only the fallback accepts, and is advertised with
      TLS. */
  lemma Port443Selected()
    ensures var ports := [ServicePort("web", 8080, "TCP"), ServicePort("web", 443, "TCP")];
            SelectPort(ports) == Some(1)
            && IngressFor([Service("web", "default", ports)]) == [IngressInfo("web.default", true, 443)]
  {
    var ports := [ServicePort("web", 8080, "TCP"), ServicePort("web", 443, "TCP")];
    var lb := Service("web", "default", ports);
    assert FirstAccepted(ports, PortFilters[0]) == None;
    assert FirstAccepted(ports, PortFilters[1]) == Some(1);
    assert SelectPort(ports) == Some(1);
    assert [lb][..0] == [];
    assert lb.name + "." + lb.namespace == "web.default";
    assert Entry(lb) == Some(IngressInfo("web.default", true, 443));
  }

  /** A port named "http" is preferred to an earlier port that only the
      fallback would accept. */
  lemma NamedHttpBeatsFallback()
    ensures SelectPort([ServicePort("metrics", 9090, "TCP"), ServicePort("http", 8080, "TCP")]) == Some(1)
  {
  }

  /** An arbitrary TCP port is selected by the last filter. */
  lemma FallbackSelectsAnyTcpPort()
    ensures SelectPort([ServicePort("custom", 12345, "TCP")]) == Some(0)
  {
  }

  /** A service with only a UDP port, or with no ports, is skipped. */
  lemma SkippedServices()
    ensures IngressFor([Service("dns", "kube-system", [ServicePort("grpc", 50051, "UDP")])]) == []
    ensures IngressFor([Service("empty", "default", [])]) == []
  {
  }
}
