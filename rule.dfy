/** ForcepointRule: the generators that pick the concrete operands of one rule
    out of its endpoint and service lists, and the rendering of one rule as a
    `rule_entry` fragment. */
module ForcepointRules {
  import opened Decimal
  import opened Text
  import opened Collections
  import opened ForcepointTypes

  /** `self.src_addrs + self.dst_addrs`: the operands both generators walk. */
  function Endpoints(rule: ForcepointRule): seq<Endpoint>
  {
    rule.src + rule.dst
  }

  /** No operand is one the generators refuse with a TypeError. */
  predicate Classified(eps: seq<Endpoint>) {
    forall i :: 0 <= i < |eps| ==> !eps[i].Invalid?
  }

  predicate IsHost(e: Endpoint) { e.Host? }

  predicate IsNetwork(e: Endpoint) { e.Net? }

  predicate IsNamedService(s: Service) { !IsWildcard(s) }

  function HostsIn(eps: seq<Endpoint>): seq<Endpoint> { Filter(IsHost, eps) }

  function NetworksIn(eps: seq<Endpoint>): seq<Endpoint> { Filter(IsNetwork, eps) }

  function ConcreteServices(services: seq<Service>): seq<Service> { Filter(IsNamedService, services) }

  lemma HostsStep(eps: seq<Endpoint>, i: int)
    requires 0 <= i < |eps|
    ensures HostsIn(eps[..i + 1]) == HostsIn(eps[..i]) + (if eps[i].Host? then [eps[i]] else [])
  {
    FilterStep(IsHost, eps, i);
  }

  lemma NetworksStep(eps: seq<Endpoint>, i: int)
    requires 0 <= i < |eps|
    ensures NetworksIn(eps[..i + 1]) == NetworksIn(eps[..i]) + (if eps[i].Net? then [eps[i]] else [])
  {
    FilterStep(IsNetwork, eps, i);
  }

  lemma ServicesStep(services: seq<Service>, i: int)
    requires 0 <= i < |services|
    ensures ConcreteServices(services[..i + 1]) ==
              ConcreteServices(services[..i]) + (if services[i] != AnyPort then [services[i]] else [])
  {
    FilterStep(IsNamedService, services, i);
  }

  /** get_addresses: the single-host addresses of the rule, in operand order;
      networks and the two literals are skipped, anything else is a TypeError. */
  method GetAddresses(rule: ForcepointRule) returns (res: Result<seq<Endpoint>>)
    ensures res.Ok? <==> Classified(Endpoints(rule))
    ensures res.Err? ==> res.error == TypeError
    ensures res.Ok? ==> res.value == HostsIn(Endpoints(rule))
  {
    var eps := rule.src + rule.dst;
    var found: seq<Endpoint> := [];
    for i := 0 to |eps|
      invariant forall j :: 0 <= j < i ==> !eps[j].Invalid?
      invariant found == HostsIn(eps[..i])
    {
      var addr := eps[i];
      HostsStep(eps, i);
      match addr {
        case Host(_) => found := found + [addr];
        case Net(_) =>
        case External =>
        case Any =>
        case Invalid => return Err(TypeError);
      }
    }
    assert eps[..|eps|] == eps;
    return Ok(found);
  }

  /** get_networks: the symmetric generator, keeping only the networks. */
  method GetNetworks(rule: ForcepointRule) returns (res: Result<seq<Endpoint>>)
    ensures res.Ok? <==> Classified(Endpoints(rule))
    ensures res.Err? ==> res.error == TypeError
    ensures res.Ok? ==> res.value == NetworksIn(Endpoints(rule))
  {
    var eps := rule.src + rule.dst;
    var found: seq<Endpoint> := [];
    for i := 0 to |eps|
      invariant forall j :: 0 <= j < i ==> !eps[j].Invalid?
      invariant found == NetworksIn(eps[..i])
    {
      var addr := eps[i];
      NetworksStep(eps, i);
      match addr {
        case Host(_) =>
        case Net(_) => found := found + [addr];
        case External =>
        case Any =>
        case Invalid => return Err(TypeError);
      }
    }
    assert eps[..|eps|] == eps;
    return Ok(found);
  }

  /** get_services: every service of the rule except the wildcard ("Any", 0), in order. */
  method GetServices(rule: ForcepointRule) returns (found: seq<Service>)
    ensures found == ConcreteServices(rule.services)
    ensures forall s :: s in found <==> s in rule.services && s != AnyPort
  {
    found := [];
    for i := 0 to |rule.services|
      invariant found == ConcreteServices(rule.services[..i])
    {
      var service := rule.services[i];
      ServicesStep(rule.services, i);
      if service != AnyPort {
        found := found + [service];
      }
    }
    assert rule.services[..|rule.services|] == rule.services;
  }

  // ---------------------------------------------------------------------------
  // Rendering one rule

  /** An endpoint renders without a lookup when it is one of the two literals;
      any other endpoint is looked up in the address table. */
  predicate Resolvable(e: Endpoint, addrRefs: map<Endpoint, string>) {
    e.External? || e.Any? || e in addrRefs
  }

  predicate ServiceResolvable(s: Service, serviceRefs: map<Service, string>) {
    IsWildcard(s) || s in serviceRefs
  }

  /** Every lookup that rendering the rule makes is defined: no KeyError. */
  predicate Resolved(rule: ForcepointRule, addrRefs: map<Endpoint, string>, serviceRefs: map<Service, string>) {
    && (forall e :: e in rule.src ==> Resolvable(e, addrRefs))
    && (forall e :: e in rule.dst ==> Resolvable(e, addrRefs))
    && (forall s :: s in rule.services ==> ServiceResolvable(s, serviceRefs))
  }

  const ExternalValue: string := "value=\"External\" ref_key=\"111\""
  const AnyValue: string := "value=\"ANY\""

  function EndpointValue(e: Endpoint, addrRefs: map<Endpoint, string>): string
    requires Resolvable(e, addrRefs)
  {
    if e.External? then ExternalValue
    else if e.Any? then AnyValue
    else "value=\"" + addrRefs[e] + "\""
  }

  function ServiceValue(s: Service, serviceRefs: map<Service, string>): string
    requires ServiceResolvable(s, serviceRefs)
  {
    if IsWildcard(s) then AnyValue else "value=\"" + serviceRefs[s] + "\""
  }

  /** The text every reference line of each kind starts with. */
  const SourceRefTag: string := Indent(7) + "<match_source_ref "
  const DestinationRefTag: string := Indent(7) + "<match_destination_ref "
  const ServiceRefTag: string := Indent(7) + "<match_service_ref "

  /** One match_source_ref (tag SourceRefTag) or match_destination_ref line. */
  function EndpointRefLine(tag: string, e: Endpoint, addrRefs: map<Endpoint, string>): string
    requires Resolvable(e, addrRefs)
  {
    tag + ("type=\"network_element\" " + EndpointValue(e, addrRefs) + "/>")
  }

  function ServiceRefLine(s: Service, serviceRefs: map<Service, string>): string
    requires ServiceResolvable(s, serviceRefs)
  {
    ServiceRefTag + ("type=\"service\" " + ServiceValue(s, serviceRefs) + "/>")
  }

  function EndpointRefLines(tag: string, eps: seq<Endpoint>, addrRefs: map<Endpoint, string>): seq<string>
    requires forall e :: e in eps ==> Resolvable(e, addrRefs)
  {
    seq(|eps|, i requires 0 <= i < |eps| => EndpointRefLine(tag, eps[i], addrRefs))
  }

  function ServiceRefLines(services: seq<Service>, serviceRefs: map<Service, string>): seq<string>
    requires forall s :: s in services ==> ServiceResolvable(s, serviceRefs)
  {
    seq(|services|, i requires 0 <= i < |services| => ServiceRefLine(services[i], serviceRefs))
  }

  /** The loop of ForcepointRule.to_xml over src_addrs (or dst_addrs): a line per
      endpoint, the literals inline, anything else looked up. */
  method RenderEndpointRefs(tag: string, eps: seq<Endpoint>, addrRefs: map<Endpoint, string>)
    returns (res: Result<seq<string>>)
    ensures res.Ok? <==> forall e :: e in eps ==> Resolvable(e, addrRefs)
    ensures res.Err? ==> res.error == KeyError
    ensures res.Ok? ==> res.value == EndpointRefLines(tag, eps, addrRefs)
  {
    var lines: seq<string> := [];
    for i := 0 to |eps|
      invariant forall j :: 0 <= j < i ==> Resolvable(eps[j], addrRefs)
      invariant |lines| == i
      invariant forall j :: 0 <= j < i ==> lines[j] == EndpointRefLine(tag, eps[j], addrRefs)
    {
      var addr := eps[i];
      var value: string;
      if addr == External {
        value := ExternalValue;
      } else if addr == Any {
        value := AnyValue;
      } else if addr in addrRefs {
        value := "value=\"" + addrRefs[addr] + "\"";
      } else {
        assert addr in eps && !Resolvable(addr, addrRefs);
        return Err(KeyError);
      }
      lines := lines + [tag + ("type=\"network_element\" " + value + "/>")];
    }
    return Ok(lines);
  }

  /** The loop of ForcepointRule.to_xml over services. */
  method RenderServiceRefs(services: seq<Service>, serviceRefs: map<Service, string>)
    returns (res: Result<seq<string>>)
    ensures res.Ok? <==> forall s :: s in services ==> ServiceResolvable(s, serviceRefs)
    ensures res.Err? ==> res.error == KeyError
    ensures res.Ok? ==> res.value == ServiceRefLines(services, serviceRefs)
  {
    var lines: seq<string> := [];
    for i := 0 to |services|
      invariant forall j :: 0 <= j < i ==> ServiceResolvable(services[j], serviceRefs)
      invariant |lines| == i
      invariant forall j :: 0 <= j < i ==> lines[j] == ServiceRefLine(services[j], serviceRefs)
    {
      var service := services[i];
      var value: string;
      if service == AnyPort {
        value := AnyValue;
      } else if service in serviceRefs {
        value := "value=\"" + serviceRefs[service] + "\"";
      } else {
        assert service in services && !ServiceResolvable(service, serviceRefs);
        return Err(KeyError);
      }
      lines := lines + [ServiceRefTag + ("type=\"service\" " + value + "/>")];
    }
    return Ok(lines);
  }

  function RuleEntryElement(name: string, rank: int): string
  {
    "<rule_entry name=\"" + name + "\" is_disabled=\"false\" parent_rule_ref=\"Access rule: insert point\" rank=\""
    + IntToString(rank) + "\">"
  }

  function RuleEntryOpen(name: string, rank: int): string
  {
    Indent(3) + RuleEntryElement(name, rank)
  }

  function RulePreamble(name: string, rank: int): seq<string>
  {
    [RuleEntryOpen(name, rank), Indent(4) + "<access_rule>", Indent(5) + "<match_part>"]
  }

  function RulePostamble(): seq<string>
  {
    [Indent(4) + "</access_rule>", Indent(3) + "</rule_entry>"]
  }

  const SourcesOpen: string := Indent(6) + "<match_sources>"
  const SourcesClose: string := Indent(6) + "</match_sources>"
  const DestinationsOpen: string := Indent(6) + "<match_destinations>"
  const DestinationsClose: string := Indent(6) + "</match_destinations>"
  const ServicesOpen: string := Indent(6) + "<match_services>"
  /** Closes match_services and, in the same list element, match_part. */
  const ServicesClose: string := Indent(6) + ("</match_services>\n" + Indent(5) + "</match_part>")

  function ActionLine(a: Action): string
  {
    Indent(5) + ("<action type=\"" + ActionText(a) + "\" />")
  }

  /** The list ForcepointRule.to_xml joins with newlines. */
  function RuleLines(rule: ForcepointRule, name: string, rank: int,
                     addrRefs: map<Endpoint, string>, serviceRefs: map<Service, string>): seq<string>
    requires Resolved(rule, addrRefs, serviceRefs)
  {
    RulePreamble(name, rank)
    + ([SourcesOpen] + EndpointRefLines(SourceRefTag, rule.src, addrRefs) + [SourcesClose])
    + ([DestinationsOpen] + EndpointRefLines(DestinationRefTag, rule.dst, addrRefs) + [DestinationsClose])
    + ([ServicesOpen] + ServiceRefLines(rule.services, serviceRefs) + [ServicesClose])
    + [ActionLine(rule.action)]
    + RulePostamble()
  }

  /** ForcepointRule.to_xml: one reference line per source, destination and
      service, in input order; the first lookup that fails is a KeyError. */
  method RuleToXml(rule: ForcepointRule, name: string, rank: int,
                   addrRefs: map<Endpoint, string>, serviceRefs: map<Service, string>)
    returns (res: Result<string>)
    ensures res.Ok? <==> Resolved(rule, addrRefs, serviceRefs)
    ensures res.Err? ==> res.error == KeyError
    ensures res.Ok? ==> res.value == Join(RuleLines(rule, name, rank, addrRefs, serviceRefs), "\n")
  {
    var preamble := RulePreamble(name, rank);
    var postamble := RulePostamble();
    var sources := RenderEndpointRefs(SourceRefTag, rule.src, addrRefs);
    if sources.Err? {
      return Err(sources.error);
    }
    var destinations := RenderEndpointRefs(DestinationRefTag, rule.dst, addrRefs);
    if destinations.Err? {
      return Err(destinations.error);
    }
    var services := RenderServiceRefs(rule.services, serviceRefs);
    if services.Err? {
      return Err(services.error);
    }
    var sourceBlock := [SourcesOpen] + sources.value + [SourcesClose];
    var destinationBlock := [DestinationsOpen] + destinations.value + [DestinationsClose];
    var serviceBlock := [ServicesOpen] + services.value + [ServicesClose];
    var actions := [ActionLine(rule.action)];
    return Ok(Join(preamble + sourceBlock + destinationBlock + serviceBlock + actions + postamble, "\n"));
  }

  // ---------------------------------------------------------------------------
  // The shape of a rule fragment

  predicate IsRefTag(t: string) {
    t == SourceRefTag || t == DestinationRefTag || t == ServiceRefTag
  }

  /** The three reference tags share their indentation and part from one
      another within "<match_s...": at the eighth character of the element
      name source and service differ from destination, at the ninth from each other. */
  lemma RefTagFacts()
    ensures StartsWith(SourceRefTag, Indent(7)) && StartsWith(DestinationRefTag, Indent(7))
            && StartsWith(ServiceRefTag, Indent(7))
    ensures |SourceRefTag| > 22 && |DestinationRefTag| > 22 && |ServiceRefTag| > 22
    ensures SourceRefTag[21] == 's' && DestinationRefTag[21] == 'd' && ServiceRefTag[21] == 's'
    ensures SourceRefTag[22] == 'o' && ServiceRefTag[22] == 'e'
  {
    assert SourceRefTag[..14] == Indent(7);
    assert DestinationRefTag[..14] == Indent(7);
    assert ServiceRefTag[..14] == Indent(7);
  }

  lemma RefLinesStartWithTag(tag: string, eps: seq<Endpoint>, addrRefs: map<Endpoint, string>)
    requires forall e :: e in eps ==> Resolvable(e, addrRefs)
    ensures forall i :: 0 <= i < |eps| ==> StartsWith(EndpointRefLines(tag, eps, addrRefs)[i], tag)
  {
    forall i | 0 <= i < |eps| ensures StartsWith(EndpointRefLines(tag, eps, addrRefs)[i], tag) {
      StartsWithConcat(tag, "type=\"network_element\" " + EndpointValue(eps[i], addrRefs) + "/>");
    }
  }

  lemma ServiceLinesStartWithTag(services: seq<Service>, serviceRefs: map<Service, string>)
    requires forall s :: s in services ==> ServiceResolvable(s, serviceRefs)
    ensures forall i :: 0 <= i < |services| ==> StartsWith(ServiceRefLines(services, serviceRefs)[i], ServiceRefTag)
  {
    forall i | 0 <= i < |services| ensures StartsWith(ServiceRefLines(services, serviceRefs)[i], ServiceRefTag) {
      StartsWithConcat(ServiceRefTag, "type=\"service\" " + ServiceValue(services[i], serviceRefs) + "/>");
    }
  }

  /** Every reference tag opens with the indentation of seven levels. */
  lemma RefTagIndented(t: string)
    requires IsRefTag(t)
    ensures StartsWith(t, Indent(7))
  {
    StartsWithConcat(Indent(7), "<match_source_ref ");
    StartsWithConcat(Indent(7), "<match_destination_ref ");
    StartsWithConcat(Indent(7), "<match_service_ref ");
  }

  /** None of the structural lines of a fragment is a reference line. */
  lemma PreambleNotRefs(name: string, rank: int, t: string)
    requires StartsWith(t, Indent(7))
    ensures forall i :: 0 <= i < |RulePreamble(name, rank)| ==> !StartsWith(RulePreamble(name, rank)[i], t)
  {
    ShallowerLine(3, RuleEntryElement(name, rank), 7, t);
    ShallowerLine(4, "<access_rule>", 7, t);
    ShallowerLine(5, "<match_part>", 7, t);
  }

  lemma PostambleNotRefs(t: string)
    requires StartsWith(t, Indent(7))
    ensures forall i :: 0 <= i < |RulePostamble()| ==> !StartsWith(RulePostamble()[i], t)
  {
    ShallowerLine(4, "</access_rule>", 7, t);
    ShallowerLine(3, "</rule_entry>", 7, t);
  }

  lemma BlockLinesNotRefs(action: Action, t: string)
    requires StartsWith(t, Indent(7))
    ensures !StartsWith(SourcesOpen, t) && !StartsWith(SourcesClose, t)
    ensures !StartsWith(DestinationsOpen, t) && !StartsWith(DestinationsClose, t)
    ensures !StartsWith(ServicesOpen, t) && !StartsWith(ServicesClose, t)
    ensures !StartsWith(ActionLine(action), t)
  {
    ShallowerLine(6, "<match_sources>", 7, t);
    ShallowerLine(6, "</match_sources>", 7, t);
    ShallowerLine(6, "<match_destinations>", 7, t);
    ShallowerLine(6, "</match_destinations>", 7, t);
    ShallowerLine(6, "<match_services>", 7, t);
    ShallowerLine(6, "</match_services>\n" + Indent(5) + "</match_part>", 7, t);
    ShallowerLine(5, "<action type=\"" + ActionText(action) + "\" />", 7, t);
  }

  /** Counting reference lines of one kind in a fragment counts them in its three reference blocks. */
  lemma RuleCountsSplit(rule: ForcepointRule, name: string, rank: int,
                        addrRefs: map<Endpoint, string>, serviceRefs: map<Service, string>, t: string)
    requires Resolved(rule, addrRefs, serviceRefs) && IsRefTag(t)
    ensures CountStartingWith(RuleLines(rule, name, rank, addrRefs, serviceRefs), t) ==
              CountStartingWith(EndpointRefLines(SourceRefTag, rule.src, addrRefs), t)
              + CountStartingWith(EndpointRefLines(DestinationRefTag, rule.dst, addrRefs), t)
              + CountStartingWith(ServiceRefLines(rule.services, serviceRefs), t)
  {
    RefTagIndented(t);
    PreambleNotRefs(name, rank, t);
    PostambleNotRefs(t);
    BlockLinesNotRefs(rule.action, t);
    var pre := RulePreamble(name, rank);
    var src := [SourcesOpen] + EndpointRefLines(SourceRefTag, rule.src, addrRefs) + [SourcesClose];
    var dst := [DestinationsOpen] + EndpointRefLines(DestinationRefTag, rule.dst, addrRefs) + [DestinationsClose];
    var svc := [ServicesOpen] + ServiceRefLines(rule.services, serviceRefs) + [ServicesClose];
    var act := [ActionLine(rule.action)];
    var post := RulePostamble();
    CountAppend(pre + src + dst + svc + act, post, t);
    CountAppend(pre + src + dst + svc, act, t);
    CountAppend(pre + src + dst, svc, t);
    CountAppend(pre + src, dst, t);
    CountAppend(pre, src, t);
    CountWhenNoneStart(pre, t);
    CountWhenNoneStart(act, t);
    CountWhenNoneStart(post, t);
    CountBlock(SourcesOpen, EndpointRefLines(SourceRefTag, rule.src, addrRefs), SourcesClose, t);
    CountBlock(DestinationsOpen, EndpointRefLines(DestinationRefTag, rule.dst, addrRefs), DestinationsClose, t);
    CountBlock(ServicesOpen, ServiceRefLines(rule.services, serviceRefs), ServicesClose, t);
  }

  /** A fragment holds exactly one match_source_ref line per source, one
      match_destination_ref line per destination and one match_service_ref
      line per service. */
  lemma RuleReferenceCounts(rule: ForcepointRule, name: string, rank: int,
                            addrRefs: map<Endpoint, string>, serviceRefs: map<Service, string>)
    requires Resolved(rule, addrRefs, serviceRefs)
    ensures CountStartingWith(RuleLines(rule, name, rank, addrRefs, serviceRefs), SourceRefTag) == |rule.src|
    ensures CountStartingWith(RuleLines(rule, name, rank, addrRefs, serviceRefs), DestinationRefTag) == |rule.dst|
    ensures CountStartingWith(RuleLines(rule, name, rank, addrRefs, serviceRefs), ServiceRefTag) == |rule.services|
  {
    var srcLines := EndpointRefLines(SourceRefTag, rule.src, addrRefs);
    var dstLines := EndpointRefLines(DestinationRefTag, rule.dst, addrRefs);
    var svcLines := ServiceRefLines(rule.services, serviceRefs);
    RefTagFacts();
    RefLinesStartWithTag(SourceRefTag, rule.src, addrRefs);
    RefLinesStartWithTag(DestinationRefTag, rule.dst, addrRefs);
    ServiceLinesStartWithTag(rule.services, serviceRefs);

    RuleCountsSplit(rule, name, rank, addrRefs, serviceRefs, SourceRefTag);
    CountWhenAllStart(srcLines, SourceRefTag);
    CountOtherTag(dstLines, DestinationRefTag, SourceRefTag, 21);
    CountOtherTag(svcLines, ServiceRefTag, SourceRefTag, 22);

    RuleCountsSplit(rule, name, rank, addrRefs, serviceRefs, DestinationRefTag);
    CountOtherTag(srcLines, SourceRefTag, DestinationRefTag, 21);
    CountWhenAllStart(dstLines, DestinationRefTag);
    CountOtherTag(svcLines, ServiceRefTag, DestinationRefTag, 21);

    RuleCountsSplit(rule, name, rank, addrRefs, serviceRefs, ServiceRefTag);
    CountOtherTag(srcLines, SourceRefTag, ServiceRefTag, 22);
    CountOtherTag(dstLines, DestinationRefTag, ServiceRefTag, 21);
    CountWhenAllStart(svcLines, ServiceRefTag);
  }
}
