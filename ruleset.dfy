/** ForcePointRuleSet: the two reference tables built over all rules, and the
    whole generic_import_export document. */
module ForcepointRuleSets {
  import opened Decimal
  import opened Text
  import opened Collections
  import opened ForcepointTypes
  import opened ForcepointRules

  /** No rule of the set holds an operand the generators refuse. */
  predicate AllClassified(rules: seq<ForcepointRule>) {
    forall i :: 0 <= i < |rules| ==> Classified(Endpoints(rules[i]))
  }

  // ---------------------------------------------------------------------------
  // Reference tables

  /** The set get_all_addr_refs gathers: what get_addresses and get_networks
      yield, rule after rule. */
  function AddrSet(rules: seq<ForcepointRule>): (r: set<Endpoint>)
    ensures forall e :: e in r ==> IsConcrete(e)
  {
    if |rules| == 0 then {} else AddrSet(rules[..|rules| - 1]) + RuleAddrs(rules[|rules| - 1])
  }

  /** What get_addresses and get_networks of one rule add to the set. */
  function RuleAddrs(rule: ForcepointRule): (r: set<Endpoint>)
    ensures forall e :: e in r <==> IsConcrete(e) && e in Endpoints(rule)
  {
    Elements(HostsIn(Endpoints(rule))) + Elements(NetworksIn(Endpoints(rule)))
  }

  /** The catalog name of an address: a host is named by its text, a network by
      its text after "network-". */
  function AddrName(e: Endpoint): string
    requires IsConcrete(e)
  {
    match e
    case Host(a) => a
    case Net(c) => "network-" + c
  }

  /** Reads a catalog name back as the address it names. */
  function AddrOfName(name: string): Endpoint
  {
    if |name| >= 8 && name[..8] == "network-" && '/' in name[8..] then Net(name[8..])
    else if '/' !in name then Host(name)
    else Invalid
  }

  lemma AddrNameRoundTrip(e: Endpoint)
    requires IsConcrete(e)
    ensures AddrOfName(AddrName(e)) == e
  {
    match e
    case Host(a) =>
    case Net(c) =>
      assert AddrName(e)[..8] == "network-" && AddrName(e)[8..] == c;
  }

  /** The names get_all_addr_refs gives a set of operands: each address its
      text, each network "network-" and its text; the two literals get none. */
  function NameTable(addrs: set<Endpoint>): map<Endpoint, string>
  {
    map e | e in addrs && IsConcrete(e) :: AddrName(e)
  }

  /** get_all_addr_refs as a value: every concrete address of the set, named. */
  function AddrTable(rules: seq<ForcepointRule>): (t: map<Endpoint, string>)
    ensures forall e :: e in t ==> IsConcrete(e)
  {
    NameTable(AddrSet(rules))
  }

  /** The set get_all_service_refs gathers: what get_services yields, rule after rule. */
  function ServiceSet(rules: seq<ForcepointRule>): (r: set<Service>)
    ensures AnyPort !in r
  {
    if |rules| == 0 then {}
    else ServiceSet(rules[..|rules| - 1]) + Elements(ConcreteServices(rules[|rules| - 1].services))
  }

  /** `"/".join(map(str, service))`. */
  function ServiceName(s: Service): string
  {
    s.name + "/" + IntToString(s.port)
  }

  /** Reads a service name back: the name before the last '/', the port after it. */
  function ServiceOfName(text: string): Service
  {
    Service(BeforeLast(text, '/'), ParseInt(AfterLast(text, '/')))
  }

  lemma ServiceNameRoundTrip(s: Service)
    ensures ServiceOfName(ServiceName(s)) == s
  {
    SplitAtLast(s.name, '/', IntToString(s.port));
    IntToStringRoundTrip(s.port);
  }

  /** get_all_service_refs as a value. */
  function ServiceTable(rules: seq<ForcepointRule>): (t: map<Service, string>)
    ensures AnyPort !in t
  {
    map s | s in ServiceSet(rules) :: ServiceName(s)
  }

  lemma {:induction false} AddrSetMembers(rules: seq<ForcepointRule>, e: Endpoint)
    ensures e in AddrSet(rules) <==>
              IsConcrete(e) && exists i :: 0 <= i < |rules| && e in Endpoints(rules[i])
  {
    if |rules| > 0 {
      var init := rules[..|rules| - 1];
      var last := rules[|rules| - 1];
      AddrSetMembers(init, e);
      assert forall i :: 0 <= i < |init| ==> init[i] == rules[i];
      if IsConcrete(e) && exists i :: 0 <= i < |rules| && e in Endpoints(rules[i]) {
        var i :| 0 <= i < |rules| && e in Endpoints(rules[i]);
        if i < |init| {
          assert e in Endpoints(init[i]);
        }
      }
    }
  }

  lemma {:induction false} ServiceSetMembers(rules: seq<ForcepointRule>, s: Service)
    ensures s in ServiceSet(rules) <==>
              s != AnyPort && exists i :: 0 <= i < |rules| && s in rules[i].services
  {
    if |rules| > 0 {
      var init := rules[..|rules| - 1];
      ServiceSetMembers(init, s);
      assert forall i :: 0 <= i < |init| ==> init[i] == rules[i];
      if s != AnyPort && exists i :: 0 <= i < |rules| && s in rules[i].services {
        var i :| 0 <= i < |rules| && s in rules[i].services;
        if i < |init| {
          assert s in init[i].services;
        }
      }
    }
  }

  /** The address table holds exactly the hosts and networks named anywhere in
      the set, each under a name no other key shares; the literals and invalid
      operands are never keys. */
  lemma AddrTableContents(rules: seq<ForcepointRule>)
    ensures forall e :: e in AddrTable(rules) <==>
              IsConcrete(e) && exists i :: 0 <= i < |rules| && e in Endpoints(rules[i])
    ensures forall e :: e in AddrTable(rules) && e.Host? ==> AddrTable(rules)[e] == e.address
    ensures forall e :: e in AddrTable(rules) && e.Net? ==> AddrTable(rules)[e] == "network-" + e.cidr
    ensures forall a, b :: a in AddrTable(rules) && b in AddrTable(rules) && a != b ==>
              AddrTable(rules)[a] != AddrTable(rules)[b]
  {
    forall e ensures e in AddrTable(rules) <==>
                       IsConcrete(e) && exists i :: 0 <= i < |rules| && e in Endpoints(rules[i]) {
      AddrSetMembers(rules, e);
    }
    forall a, b | a in AddrTable(rules) && b in AddrTable(rules) && a != b
      ensures AddrTable(rules)[a] != AddrTable(rules)[b]
    {
      AddrNameRoundTrip(a);
      AddrNameRoundTrip(b);
    }
  }

  /** The service table holds exactly the non-wildcard services of the set,
      each named "<name>/<port>" under a name no other key shares. */
  lemma ServiceTableContents(rules: seq<ForcepointRule>)
    ensures forall s :: s in ServiceTable(rules) <==>
              s != AnyPort && exists i :: 0 <= i < |rules| && s in rules[i].services
    ensures forall s :: s in ServiceTable(rules) ==>
              ServiceTable(rules)[s] == s.name + "/" + IntToString(s.port)
    ensures forall a, b :: a in ServiceTable(rules) && b in ServiceTable(rules) && a != b ==>
              ServiceTable(rules)[a] != ServiceTable(rules)[b]
  {
    forall s ensures s in ServiceTable(rules) <==>
                       s != AnyPort && exists i :: 0 <= i < |rules| && s in rules[i].services {
      ServiceSetMembers(rules, s);
    }
    forall a, b | a in ServiceTable(rules) && b in ServiceTable(rules) && a != b
      ensures ServiceTable(rules)[a] != ServiceTable(rules)[b]
    {
      ServiceNameRoundTrip(a);
      ServiceNameRoundTrip(b);
    }
  }

  /** Every lookup that rendering any rule of the set makes, in the tables built
      from the whole set, is defined. */
  lemma TablesResolve(rules: seq<ForcepointRule>, i: int)
    requires AllClassified(rules) && 0 <= i < |rules|
    ensures Resolved(rules[i], AddrTable(rules), ServiceTable(rules))
  {
    var rule := rules[i];
    forall e | e in Endpoints(rule)
      ensures Resolvable(e, AddrTable(rules))
    {
      var k :| 0 <= k < |Endpoints(rule)| && Endpoints(rule)[k] == e;
      assert !e.Invalid?;
      AddrSetMembers(rules, e);
    }
    forall s | s in rule.services
      ensures ServiceResolvable(s, ServiceTable(rules))
    {
      ServiceSetMembers(rules, s);
    }
  }

  lemma AllClassifiedStep(rules: seq<ForcepointRule>, i: int)
    requires 0 <= i < |rules|
    requires AllClassified(rules[..i]) && Classified(Endpoints(rules[i]))
    ensures AllClassified(rules[..i + 1])
  {
    assert forall j :: 0 <= j < i ==> rules[..i + 1][j] == rules[..i][j];
  }

  lemma AddrSetStep(rules: seq<ForcepointRule>, i: int)
    requires 0 <= i < |rules|
    ensures AddrSet(rules[..i + 1]) == AddrSet(rules[..i]) + RuleAddrs(rules[i])
  {
    assert rules[..i + 1][..i] == rules[..i];
  }

  lemma ServiceSetStep(rules: seq<ForcepointRule>, i: int)
    requires 0 <= i < |rules|
    ensures ServiceSet(rules[..i + 1]) == ServiceSet(rules[..i]) + Elements(ConcreteServices(rules[i].services))
  {
    assert rules[..i + 1][..i] == rules[..i];
  }

  /** The naming loop of get_all_addr_refs, over any set it might be handed:
      an operand that is neither address, network nor literal raises TypeError. */
  method NameAddresses(addrs: set<Endpoint>) returns (res: Result<map<Endpoint, string>>)
    ensures res.Ok? <==> Invalid !in addrs
    ensures res.Err? ==> res.error == TypeError
    ensures res.Ok? ==> res.value == NameTable(addrs)
  {
    var addrRefs: map<Endpoint, string> := map[];
    var pending := addrs;
    while pending != {}
      invariant pending <= addrs
      invariant Invalid in addrs ==> Invalid in pending
      invariant addrRefs == NameTable(addrs - pending)
      decreases pending
    {
      var addr :| addr in pending;
      match addr {
        case Host(a) => addrRefs := addrRefs[addr := a];
        case Net(c) => addrRefs := addrRefs[addr := "network-" + c];
        case External =>
        case Any =>
        case Invalid => return Err(TypeError);
      }
      pending := pending - {addr};
    }
    assert addrs - pending == addrs;
    return Ok(addrRefs);
  }

  /** get_all_addr_refs: a TypeError when some rule has an invalid operand,
      the address table otherwise. */
  method GetAllAddrRefs(rs: ForcePointRuleSet) returns (res: Result<map<Endpoint, string>>)
    ensures res.Ok? <==> AllClassified(rs.root)
    ensures res.Err? ==> res.error == TypeError
    ensures res.Ok? ==> res.value == AddrTable(rs.root)
  {
    var addrs: set<Endpoint> := {};
    for i := 0 to |rs.root|
      invariant AllClassified(rs.root[..i])
      invariant addrs == AddrSet(rs.root[..i])
    {
      var rule := rs.root[i];
      AddrSetStep(rs.root, i);
      var hosts := GetAddresses(rule);
      if hosts.Err? {
        assert !Classified(Endpoints(rs.root[i]));
        return Err(hosts.error);
      }
      AllClassifiedStep(rs.root, i);
      // get_networks fails exactly when get_addresses does, so it succeeds here.
      var networks := GetNetworks(rule);
      addrs := addrs + (Elements(hosts.value) + Elements(networks.value));
    }
    assert rs.root[..|rs.root|] == rs.root;
    res := NameAddresses(addrs);
  }

  /** get_all_service_refs. */
  method GetAllServiceRefs(rs: ForcePointRuleSet) returns (serviceRefs: map<Service, string>)
    ensures serviceRefs == ServiceTable(rs.root)
  {
    var services: set<Service> := {};
    for i := 0 to |rs.root|
      invariant services == ServiceSet(rs.root[..i])
    {
      ServiceSetStep(rs.root, i);
      var found := GetServices(rs.root[i]);
      services := services + Elements(found);
    }
    assert rs.root[..|rs.root|] == rs.root;

    serviceRefs := map[];
    var pending := services;
    while pending != {}
      invariant pending <= services
      invariant serviceRefs.Keys == services - pending
      invariant forall s :: s in serviceRefs ==> serviceRefs[s] == ServiceName(s)
      decreases pending
    {
      var service :| service in pending;
      serviceRefs := serviceRefs[service := service.name + "/" + IntToString(service.port)];
      pending := pending - {service};
    }
  }

  // ---------------------------------------------------------------------------
  // The document

  function DocumentPreamble(): seq<string>
  {
    [ XmlDeclaration, Doctype, ImportOpen ]
  }

  const XmlDeclaration: string := "<?xml version='1.0' encoding='UTF-8' ?>"
  const Doctype: string := "<!DOCTYPE generic_import_export SYSTEM \"generic_import_export_v7.0.dtd\">"
  const ImportOpen: string := "<generic_import_export build=\"11323\" update_package_version=\"1568\">"
  const ImportClose: string := "</generic_import_export>"

  function DocumentPostamble(): seq<string>
  {
    [ImportClose]
  }

  function PolicyOpen(ruleName: string): string
  {
    Indent(1) + "<fw_policy name=\"" + ruleName + "\" template_policy_ref=\"Firewall Template 1\">"
  }

  const AccessEntryOpen: string := Indent(2) + "<access_entry>"
  const AccessEntryClose: string := Indent(2) + "</access_entry>"
  const PolicyClose: string := Indent(1) + "</fw_policy>"

  function HostLine(address: AddressText, name: string): string
  {
    "  <host name=\"" + name + "\">\n    <mvia_address address=\"" + address + "\" />\n  </host>"
  }

  function NetworkLine(cidr: NetworkText, name: string): string
  {
    "  <network ipv" + NatToString(Version(cidr)) + "_network=\"" + cidr + "\" name=\"" + name + "\"/>"
  }

  /** How a network element opens for an IPv4 and for an IPv6 network. */
  const IPv4NetworkOpen: string := "  <network ipv4_network=\""
  const IPv6NetworkOpen: string := "  <network ipv6_network=\""

  /** A network element names its IP version: it opens as an ipv6_network
      exactly when the network's text holds a ':', as an ipv4_network otherwise. */
  lemma NetworkLineVersion(cidr: NetworkText, name: string)
    ensures StartsWith(NetworkLine(cidr, name), IPv6NetworkOpen) <==> ':' in cidr
    ensures StartsWith(NetworkLine(cidr, name), IPv4NetworkOpen) <==> ':' !in cidr
  {
    var line := NetworkLine(cidr, name);
    var open := "  <network ipv" + NatToString(Version(cidr)) + "_network=\"";
    var rest := cidr + "\" name=\"" + name + "\"/>";
    assert line == open + rest;
    StartsWithConcat(open, rest);
    assert NatToString(Version(cidr)) == [DigitChar(Version(cidr))];
    assert line[14] == DigitChar(Version(cidr));
    if ':' in cidr {
      assert open == IPv6NetworkOpen;
      DiffersWithin(line, IPv4NetworkOpen, 14);
    } else {
      assert open == IPv4NetworkOpen;
      DiffersWithin(line, IPv6NetworkOpen, 14);
    }
  }

  function ServiceTcpLine(name: string, port: int): string
  {
    "  <service_tcp name=\"" + name + "\" min_dst_port=\"" + IntToString(port) + "\" />"
  }

  // The entry of one key; the empty fallback is never taken for the keys the
  // document lists.

  function HostEntryOf(addrRefs: map<Endpoint, string>): Endpoint -> string
  {
    (e: Endpoint) => if e.Host? && e in addrRefs then HostLine(e.address, addrRefs[e]) else ""
  }

  function NetworkEntryOf(addrRefs: map<Endpoint, string>): Endpoint -> string
  {
    (e: Endpoint) => if e.Net? && e in addrRefs then NetworkLine(e.cidr, addrRefs[e]) else ""
  }

  function ServiceEntryOf(serviceRefs: map<Service, string>): Service -> string
  {
    s => if s in serviceRefs then ServiceTcpLine(serviceRefs[s], s.port) else ""
  }

  /** The `host` elements, for the address-table keys in the order `order` visits them. */
  function HostEntries(order: seq<Endpoint>, addrRefs: map<Endpoint, string>): seq<string>
  {
    Map(HostEntryOf(addrRefs), HostsIn(order))
  }

  function NetworkEntries(order: seq<Endpoint>, addrRefs: map<Endpoint, string>): seq<string>
  {
    Map(NetworkEntryOf(addrRefs), NetworksIn(order))
  }

  function ServiceEntries(order: seq<Service>, serviceRefs: map<Service, string>): seq<string>
  {
    Map(ServiceEntryOf(serviceRefs), order)
  }

  /** The name of the i-th rule (1-based): `f"{rule_name}-{i}"`. */
  function RuleEntryName(ruleName: string, i: int): string
  {
    ruleName + "-" + IntToString(i)
  }

  /** Every rule of the list renders against the two tables. */
  predicate AllResolved(rules: seq<ForcepointRule>, addrRefs: map<Endpoint, string>,
                        serviceRefs: map<Service, string>) {
    forall j :: 0 <= j < |rules| ==> Resolved(rules[j], addrRefs, serviceRefs)
  }

  /** The fragments of the rules in policy order, the one at 0-based position
      j named and ranked j + 1. */
  function RuleFragments(rules: seq<ForcepointRule>, ruleName: string,
                         addrRefs: map<Endpoint, string>, serviceRefs: map<Service, string>): seq<string>
    requires AllResolved(rules, addrRefs, serviceRefs)
  {
    seq(|rules|, j requires 0 <= j < |rules| => RuleFragment(rules[j], ruleName, j + 1, addrRefs, serviceRefs))
  }

  lemma TablesResolveAll(rules: seq<ForcepointRule>)
    requires AllClassified(rules)
    ensures AllResolved(rules, AddrTable(rules), ServiceTable(rules))
  {
    forall j | 0 <= j < |rules| ensures Resolved(rules[j], AddrTable(rules), ServiceTable(rules)) {
      TablesResolve(rules, j);
    }
  }

  function PolicyLines(rules: seq<ForcepointRule>, ruleName: string,
                       addrRefs: map<Endpoint, string>, serviceRefs: map<Service, string>): seq<string>
    requires AllResolved(rules, addrRefs, serviceRefs)
  {
    [PolicyOpen(ruleName), AccessEntryOpen]
    + RuleFragments(rules, ruleName, addrRefs, serviceRefs)
    + [AccessEntryClose, PolicyClose]
  }

  /** The list ForcePointRuleSet.to_xml joins, given its reference tables, when
      the catalog loops visit the address table in `addrOrder` and the service
      table in `serviceOrder`. */
  function DocLines(rules: seq<ForcepointRule>, ruleName: string,
                    addrRefs: map<Endpoint, string>, serviceRefs: map<Service, string>,
                    addrOrder: seq<Endpoint>, serviceOrder: seq<Service>): seq<string>
    requires AllResolved(rules, addrRefs, serviceRefs)
  {
    DocumentPreamble()
    + PolicyLines(rules, ruleName, addrRefs, serviceRefs)
    + NetworkEntries(addrOrder, addrRefs)
    + HostEntries(addrOrder, addrRefs)
    + ServiceEntries(serviceOrder, serviceRefs)
    + DocumentPostamble()
  }

  /** The network and host elements of a catalog, in that order in the document. */
  datatype Catalog = Catalog(networks: seq<string>, hosts: seq<string>)

  /** Visiting one more key adds its element to the end of its own list only. */
  lemma HostCatalogStep(order: seq<Endpoint>, addr: Endpoint, addrRefs: map<Endpoint, string>)
    requires addr in addrRefs
    ensures HostEntries(order + [addr], addrRefs) ==
              HostEntries(order, addrRefs) + (if addr.Host? then [HostLine(addr.address, addrRefs[addr])] else [])
  {
    FilterAppend(IsHost, order, [addr]);
    MapAppend(HostEntryOf(addrRefs), HostsIn(order), HostsIn([addr]));
  }

  lemma NetworkCatalogStep(order: seq<Endpoint>, addr: Endpoint, addrRefs: map<Endpoint, string>)
    requires addr in addrRefs
    ensures NetworkEntries(order + [addr], addrRefs) ==
              NetworkEntries(order, addrRefs) + (if addr.Net? then [NetworkLine(addr.cidr, addrRefs[addr])] else [])
  {
    FilterAppend(IsNetwork, order, [addr]);
    MapAppend(NetworkEntryOf(addrRefs), NetworksIn(order), NetworksIn([addr]));
  }

  lemma ServiceCatalogStep(order: seq<Service>, service: Service, serviceRefs: map<Service, string>)
    requires service in serviceRefs
    ensures ServiceEntries(order + [service], serviceRefs) ==
              ServiceEntries(order, serviceRefs) + [ServiceTcpLine(serviceRefs[service], service.port)]
  {
    MapAppend(ServiceEntryOf(serviceRefs), order, [service]);
  }

  /** Moving one element from the keys still pending to the end of a
      repetition-free listing of the others keeps it a repetition-free listing. */
  lemma ListingStep<T>(order: seq<T>, pending: set<T>, keys: set<T>, x: T)
    requires NoDup(order) && Elements(order) == keys - pending && pending <= keys
    requires x in pending
    ensures NoDup(order + [x])
    ensures Elements(order + [x]) == keys - (pending - {x})
  {
    var longer := order + [x];
    forall i, j | 0 <= i < j < |longer| ensures longer[i] != longer[j] {
      if j < |order| {
        assert longer[i] == order[i] && longer[j] == order[j];
      } else {
        assert longer[i] == order[i] && order[i] in Elements(order);
      }
    }
    assert Elements(longer) == Elements(order) + {x};
  }

  /** The address loop of to_xml over any address table: External and Any keys
      are skipped, a key of any other kind raises TypeError. The order the loop
      takes is the ghost result. */
  method RenderAddressCatalog(addrRefs: map<Endpoint, string>)
    returns (res: Result<Catalog>, ghost order: seq<Endpoint>)
    ensures res.Ok? <==> Invalid !in addrRefs
    ensures res.Err? ==> res.error == TypeError
    ensures res.Ok? ==>
              && Enumerates(order, addrRefs.Keys)
              && res.value.hosts == HostEntries(order, addrRefs)
              && res.value.networks == NetworkEntries(order, addrRefs)
  {
    order := [];
    var hosts: seq<string> := [];
    var networks: seq<string> := [];
    var pending := addrRefs.Keys;
    while pending != {}
      invariant pending <= addrRefs.Keys
      invariant Invalid in addrRefs ==> Invalid in pending
      invariant NoDup(order) && Elements(order) == addrRefs.Keys - pending
      invariant hosts == HostEntries(order, addrRefs)
      invariant networks == NetworkEntries(order, addrRefs)
      decreases pending
    {
      var addr :| addr in pending;
      var name := addrRefs[addr];
      HostCatalogStep(order, addr, addrRefs);
      NetworkCatalogStep(order, addr, addrRefs);
      ListingStep(order, pending, addrRefs.Keys, addr);
      match addr {
        case Host(a) => hosts := hosts + [HostLine(a, name)];
        case Net(c) => networks := networks + [NetworkLine(c, name)];
        case External =>
        case Any =>
        case Invalid => return Err(TypeError), order;
      }
      order := order + [addr];
      pending := pending - {addr};
    }
    return Ok(Catalog(networks, hosts)), order;
  }

  /** The service loop of to_xml. */
  method RenderServiceCatalog(serviceRefs: map<Service, string>)
    returns (services: seq<string>, ghost order: seq<Service>)
    ensures Enumerates(order, serviceRefs.Keys)
    ensures services == ServiceEntries(order, serviceRefs)
  {
    order := [];
    services := [];
    var pending := serviceRefs.Keys;
    while pending != {}
      invariant pending <= serviceRefs.Keys
      invariant NoDup(order) && Elements(order) == serviceRefs.Keys - pending
      invariant services == ServiceEntries(order, serviceRefs)
      decreases pending
    {
      var service :| service in pending;
      var name := serviceRefs[service];
      ServiceCatalogStep(order, service, serviceRefs);
      ListingStep(order, pending, serviceRefs.Keys, service);
      services := services + [ServiceTcpLine(name, service.port)];
      order := order + [service];
      pending := pending - {service};
    }
  }

  /** The fragment of one rule, named and ranked by its 1-based position. */
  function RuleFragment(rule: ForcepointRule, ruleName: string, rank: int,
                        addrRefs: map<Endpoint, string>, serviceRefs: map<Service, string>): string
    requires Resolved(rule, addrRefs, serviceRefs)
  {
    Join(RuleLines(rule, RuleEntryName(ruleName, rank), rank, addrRefs, serviceRefs), "\n")
  }

  lemma RuleFragmentsStep(rules: seq<ForcepointRule>, i: int, ruleName: string,
                          addrRefs: map<Endpoint, string>, serviceRefs: map<Service, string>)
    requires 0 <= i < |rules|
    requires AllResolved(rules[..i], addrRefs, serviceRefs)
    requires Resolved(rules[i], addrRefs, serviceRefs)
    ensures AllResolved(rules[..i + 1], addrRefs, serviceRefs)
    ensures RuleFragments(rules[..i + 1], ruleName, addrRefs, serviceRefs) ==
              RuleFragments(rules[..i], ruleName, addrRefs, serviceRefs)
              + [RuleFragment(rules[i], ruleName, i + 1, addrRefs, serviceRefs)]
  {
    assert forall j :: 0 <= j < i ==> rules[..i + 1][j] == rules[..i][j];
  }

  /** One iteration of the rule loop: the rule at 0-based position i, named
      and ranked i + 1. */
  method RenderRule(rule: ForcepointRule, ruleName: string, i: int,
                    addrRefs: map<Endpoint, string>, serviceRefs: map<Service, string>)
    returns (res: Result<string>)
    ensures res.Ok? <==> Resolved(rule, addrRefs, serviceRefs)
    ensures res.Err? ==> res.error == KeyError
    ensures res.Ok? ==> res.value == RuleFragment(rule, ruleName, i + 1, addrRefs, serviceRefs)
  {
    res := RuleToXml(rule, RuleEntryName(ruleName, i + 1), i + 1, addrRefs, serviceRefs);
  }

  /** The rule loop of to_xml: rule i (from 1) is rendered as "<rule_name>-i"
      with rank i; the first lookup a table misses raises KeyError. */
  method RenderRules(rules: seq<ForcepointRule>, ruleName: string,
                     addrRefs: map<Endpoint, string>, serviceRefs: map<Service, string>)
    returns (res: Result<seq<string>>)
    ensures res.Ok? <==> AllResolved(rules, addrRefs, serviceRefs)
    ensures res.Err? ==> res.error == KeyError
    ensures res.Ok? ==> res.value == RuleFragments(rules, ruleName, addrRefs, serviceRefs)
  {
    var fragments: seq<string> := [];
    for i := 0 to |rules|
      invariant AllResolved(rules[..i], addrRefs, serviceRefs)
      invariant fragments == RuleFragments(rules[..i], ruleName, addrRefs, serviceRefs)
    {
      var fragment := RenderRule(rules[i], ruleName, i, addrRefs, serviceRefs);
      if fragment.Err? {
        assert !Resolved(rules[i], addrRefs, serviceRefs);
        return Err(fragment.error);
      }
      RuleFragmentsStep(rules, i, ruleName, addrRefs, serviceRefs);
      fragments := fragments + [fragment.value];
    }
    assert rules[..|rules|] == rules;
    return Ok(fragments);
  }

  /** ForcePointRuleSet.to_xml. The catalog loops walk the two dictionaries in
      an order Python leaves open; the orders taken are returned as ghost
      results, and every property of the document below holds for any of them. */
  method ToXml(rs: ForcePointRuleSet, ruleName: string := "test_policy")
    returns (res: Result<string>, ghost addrOrder: seq<Endpoint>, ghost serviceOrder: seq<Service>)
    ensures res.Ok? <==> AllClassified(rs.root)
    ensures res.Err? ==> res.error == TypeError
    ensures res.Ok? ==>
              && Enumerates(addrOrder, AddrTable(rs.root).Keys)
              && Enumerates(serviceOrder, ServiceTable(rs.root).Keys)
              && AllResolved(rs.root, AddrTable(rs.root), ServiceTable(rs.root))
              && res.value == Join(DocLines(rs.root, ruleName, AddrTable(rs.root), ServiceTable(rs.root),
                                            addrOrder, serviceOrder), "\n")
  {
    addrOrder, serviceOrder := [], [];
    var preamble := DocumentPreamble();
    var postamble := DocumentPostamble();

    var addrResult := GetAllAddrRefs(rs);
    if addrResult.Err? {
      return Err(addrResult.error), addrOrder, serviceOrder;
    }
    var addrRefs := addrResult.value;
    var serviceRefs := GetAllServiceRefs(rs);

    // The table holds hosts and networks only, so neither this loop nor the
    // rule loop can fail.
    var catalog;
    catalog, addrOrder := RenderAddressCatalog(addrRefs);
    var services;
    services, serviceOrder := RenderServiceCatalog(serviceRefs);
    TablesResolveAll(rs.root);
    var rules := RenderRules(rs.root, ruleName, addrRefs, serviceRefs);

    var policy := [PolicyOpen(ruleName), AccessEntryOpen] + rules.value + [AccessEntryClose, PolicyClose];
    res := Ok(Join(preamble + policy + catalog.value.networks + catalog.value.hosts + services + postamble, "\n"));
  }

  // ---------------------------------------------------------------------------
  // Properties of the document

  /** The policy block: its opening lines, then the rules in `root` order, the
      one at 0-based position j named "<rule_name>-(j+1)" and ranked j + 1, then
      its closing lines. */
  lemma PolicyLayout(rules: seq<ForcepointRule>, ruleName: string,
                     addrRefs: map<Endpoint, string>, serviceRefs: map<Service, string>)
    requires AllResolved(rules, addrRefs, serviceRefs)
    ensures var policy := PolicyLines(rules, ruleName, addrRefs, serviceRefs);
            var n := |rules|;
            && |policy| == n + 4
            && policy[0] == PolicyOpen(ruleName)
            && policy[1] == AccessEntryOpen
            && (forall j :: 0 <= j < n ==> policy[2 + j] == RuleFragment(rules[j], ruleName, j + 1, addrRefs, serviceRefs))
            && policy[n + 2] == AccessEntryClose
            && policy[n + 3] == PolicyClose
  {
    var fragments := RuleFragments(rules, ruleName, addrRefs, serviceRefs);
    var policy := PolicyLines(rules, ruleName, addrRefs, serviceRefs);
    forall j | 0 <= j < |rules|
      ensures policy[2 + j] == RuleFragment(rules[j], ruleName, j + 1, addrRefs, serviceRefs)
    {
      assert policy[2 + j] == fragments[j];
    }
  }

  /** The sections of the document in order: the XML preamble, the policy
      block, then the networks, the hosts and the services of the catalog, and
      the closing tag. */
  lemma DocumentSections(rules: seq<ForcepointRule>, ruleName: string,
                         addrRefs: map<Endpoint, string>, serviceRefs: map<Service, string>,
                         addrOrder: seq<Endpoint>, serviceOrder: seq<Service>)
    requires AllResolved(rules, addrRefs, serviceRefs)
    ensures var doc := DocLines(rules, ruleName, addrRefs, serviceRefs, addrOrder, serviceOrder);
            var policy := PolicyLines(rules, ruleName, addrRefs, serviceRefs);
            var networks := NetworkEntries(addrOrder, addrRefs);
            var hosts := HostEntries(addrOrder, addrRefs);
            var services := ServiceEntries(serviceOrder, serviceRefs);
            var policyEnd := 3 + |policy|;
            var networksEnd := policyEnd + |networks|;
            var hostsEnd := networksEnd + |hosts|;
            && |doc| == hostsEnd + |services| + 1
            && doc[..3] == DocumentPreamble()
            && doc[3..policyEnd] == policy
            && doc[policyEnd..networksEnd] == networks
            && doc[networksEnd..hostsEnd] == hosts
            && doc[hostsEnd..|doc| - 1] == services
            && doc[|doc| - 1] == ImportClose
  {
    var pre := DocumentPreamble();
    var policy := PolicyLines(rules, ruleName, addrRefs, serviceRefs);
    var networks := NetworkEntries(addrOrder, addrRefs);
    var hosts := HostEntries(addrOrder, addrRefs);
    var services := ServiceEntries(serviceOrder, serviceRefs);
    assert |pre| == 3;
    assert DocLines(rules, ruleName, addrRefs, serviceRefs, addrOrder, serviceOrder)
        == pre + policy + networks + hosts + services + DocumentPostamble();
    SixParts(pre, policy, networks, hosts, services, DocumentPostamble());
  }

  /** The network keys and the host keys of an address table. */
  function NetworkKeys(addrRefs: map<Endpoint, string>): set<Endpoint>
  {
    Satisfying(IsNetwork, addrRefs.Keys)
  }

  function HostKeys(addrRefs: map<Endpoint, string>): set<Endpoint>
  {
    Satisfying(IsHost, addrRefs.Keys)
  }

  /** Whatever order the loop visits the address table in, the host section has
      one element per host key, naming it by its table name and giving its
      address, and nothing else. */
  lemma HostCatalog(order: seq<Endpoint>, addrRefs: map<Endpoint, string>)
    requires Enumerates(order, addrRefs.Keys)
    ensures |HostEntries(order, addrRefs)| == |HostKeys(addrRefs)|
    ensures forall e :: e in addrRefs && e.Host? ==> HostLine(e.address, addrRefs[e]) in HostEntries(order, addrRefs)
    ensures forall line :: line in HostEntries(order, addrRefs) ==>
              exists e :: e in addrRefs && e.Host? && line == HostLine(e.address, addrRefs[e])
  {
    var hosts := HostsIn(order);
    var f := HostEntryOf(addrRefs);
    FilterEnumerates(IsHost, order, addrRefs.Keys);
    EnumerationSize(hosts, HostKeys(addrRefs));
    MapMembers(f, hosts);
    forall e | e in addrRefs && e.Host? ensures HostLine(e.address, addrRefs[e]) in Map(f, hosts) {
      assert e in Elements(order);
      assert f(e) == HostLine(e.address, addrRefs[e]);
    }
    forall line | line in Map(f, hosts)
      ensures exists e :: e in addrRefs && e.Host? && line == HostLine(e.address, addrRefs[e])
    {
      var e :| e in hosts && line == f(e);
      assert e in Elements(order);
    }
  }

  /** The network section: one element per network key, with its IP version,
      its text and its table name. */
  lemma NetworkCatalog(order: seq<Endpoint>, addrRefs: map<Endpoint, string>)
    requires Enumerates(order, addrRefs.Keys)
    ensures |NetworkEntries(order, addrRefs)| == |NetworkKeys(addrRefs)|
    ensures forall e :: e in addrRefs && e.Net? ==> NetworkLine(e.cidr, addrRefs[e]) in NetworkEntries(order, addrRefs)
    ensures forall line :: line in NetworkEntries(order, addrRefs) ==>
              exists e :: e in addrRefs && e.Net? && line == NetworkLine(e.cidr, addrRefs[e])
  {
    var networks := NetworksIn(order);
    var f := NetworkEntryOf(addrRefs);
    FilterEnumerates(IsNetwork, order, addrRefs.Keys);
    EnumerationSize(networks, NetworkKeys(addrRefs));
    MapMembers(f, networks);
    forall e | e in addrRefs && e.Net? ensures NetworkLine(e.cidr, addrRefs[e]) in Map(f, networks) {
      assert e in Elements(order);
      assert f(e) == NetworkLine(e.cidr, addrRefs[e]);
    }
    forall line | line in Map(f, networks)
      ensures exists e :: e in addrRefs && e.Net? && line == NetworkLine(e.cidr, addrRefs[e])
    {
      var e :| e in networks && line == f(e);
      assert e in Elements(order);
    }
  }

  /** The service section: one service_tcp element per service-table entry,
      named by the table and with min_dst_port the service's port. */
  lemma ServiceCatalog(order: seq<Service>, serviceRefs: map<Service, string>)
    requires Enumerates(order, serviceRefs.Keys)
    ensures |ServiceEntries(order, serviceRefs)| == |serviceRefs|
    ensures forall s :: s in serviceRefs ==> ServiceTcpLine(serviceRefs[s], s.port) in ServiceEntries(order, serviceRefs)
    ensures forall line :: line in ServiceEntries(order, serviceRefs) ==>
              exists s :: s in serviceRefs && line == ServiceTcpLine(serviceRefs[s], s.port)
  {
    var f := ServiceEntryOf(serviceRefs);
    EnumerationSize(order, serviceRefs.Keys);
    assert |serviceRefs.Keys| == |serviceRefs|;
    MapMembers(f, order);
    forall s | s in serviceRefs ensures ServiceTcpLine(serviceRefs[s], s.port) in Map(f, order) {
      assert s in Elements(order);
      assert f(s) == ServiceTcpLine(serviceRefs[s], s.port);
    }
    forall line | line in Map(f, order)
      ensures exists s :: s in serviceRefs && line == ServiceTcpLine(serviceRefs[s], s.port)
    {
      var s :| s in order && line == f(s);
      assert s in Elements(order);
    }
  }

  /** Python leaves the order of the catalog loops open; any two orders give
      the three catalog sections as permutations of each other. */
  lemma CatalogOrderIrrelevant(addrRefs: map<Endpoint, string>, serviceRefs: map<Service, string>,
                               order1: seq<Endpoint>, order2: seq<Endpoint>,
                               services1: seq<Service>, services2: seq<Service>)
    requires Enumerates(order1, addrRefs.Keys) && Enumerates(order2, addrRefs.Keys)
    requires Enumerates(services1, serviceRefs.Keys) && Enumerates(services2, serviceRefs.Keys)
    ensures multiset(NetworkEntries(order1, addrRefs)) == multiset(NetworkEntries(order2, addrRefs))
    ensures multiset(HostEntries(order1, addrRefs)) == multiset(HostEntries(order2, addrRefs))
    ensures multiset(ServiceEntries(services1, serviceRefs)) == multiset(ServiceEntries(services2, serviceRefs))
  {
    FilterEnumerates(IsHost, order1, addrRefs.Keys);
    FilterEnumerates(IsHost, order2, addrRefs.Keys);
    EnumerationsArePermutations(HostsIn(order1), HostsIn(order2), HostKeys(addrRefs));
    MapPermutation(HostEntryOf(addrRefs), HostsIn(order1), HostsIn(order2));
    FilterEnumerates(IsNetwork, order1, addrRefs.Keys);
    FilterEnumerates(IsNetwork, order2, addrRefs.Keys);
    EnumerationsArePermutations(NetworksIn(order1), NetworksIn(order2), NetworkKeys(addrRefs));
    MapPermutation(NetworkEntryOf(addrRefs), NetworksIn(order1), NetworksIn(order2));
    EnumerationsArePermutations(services1, services2, serviceRefs.Keys);
    MapPermutation(ServiceEntryOf(serviceRefs), services1, services2);
  }

  /** Every reference a rule of the document makes to a concrete operand names
      an element of the document's catalog: a host by the name of its host
      element, a network by the name of its network element, a service by the
      name of its service_tcp element with that port. */
  lemma ReferencesNameCatalogEntries(rules: seq<ForcepointRule>, addrOrder: seq<Endpoint>, serviceOrder: seq<Service>)
    requires Enumerates(addrOrder, AddrTable(rules).Keys)
    requires Enumerates(serviceOrder, ServiceTable(rules).Keys)
    ensures forall j, e :: 0 <= j < |rules| && e in Endpoints(rules[j]) && e.Host? ==>
              e in AddrTable(rules) && HostLine(e.address, AddrTable(rules)[e]) in HostEntries(addrOrder, AddrTable(rules))
    ensures forall j, e :: 0 <= j < |rules| && e in Endpoints(rules[j]) && e.Net? ==>
              e in AddrTable(rules) && NetworkLine(e.cidr, AddrTable(rules)[e]) in NetworkEntries(addrOrder, AddrTable(rules))
    ensures forall j, s :: 0 <= j < |rules| && s in rules[j].services && s != AnyPort ==>
              s in ServiceTable(rules) && ServiceTcpLine(ServiceTable(rules)[s], s.port) in ServiceEntries(serviceOrder, ServiceTable(rules))
  {
    AddrTableContents(rules);
    ServiceTableContents(rules);
    HostCatalog(addrOrder, AddrTable(rules));
    NetworkCatalog(addrOrder, AddrTable(rules));
    ServiceCatalog(serviceOrder, ServiceTable(rules));
  }
}
