/** The data model of the Forcepoint rule compiler: rule operands as the
    pydantic model classifies them, rules, rule sets, and the errors an
    emission can end in. */
module ForcepointTypes {

  /** The Python exceptions the compiler can end in. */
  datatype Error =
    | TypeError        // an endpoint that is neither address, network, "External" nor "Any"
    | KeyError         // a rule looks up a value its reference table does not hold
    | ValidationError  // the rule model refuses its fields (an empty service list)

  datatype Result<+T> = Ok(value: T) | Err(error: Error)

  /** ForcepointActions, with the enum values the XML carries. */
  datatype Action = Allow | Continue | Discard | Refuse

  function ActionText(a: Action): string
  {
    match a
    case Allow => "allow"
    case Continue => "continue"
    case Discard => "discard"
    case Refuse => "refuse"
  }

  /** The canonical text of an IP address, str(addr). It never holds a '/'. */
  type AddressText = s: string | '/' !in s witness "0.0.0.0"

  /** The canonical text of an IP network, str(net): always "<address>/<prefix length>". */
  type NetworkText = s: string | '/' in s witness "0.0.0.0/0"

  /** A source or destination operand. Two addresses (networks) are equal
      exactly when their canonical texts are, as for Python's ipaddress. */
  datatype Endpoint =
    | Host(address: AddressText)
    | Net(cidr: NetworkText)
    | External
    | Any
    | Invalid   // anything else that reaches the compiler

  predicate IsConcrete(e: Endpoint) {
    e.Host? || e.Net?
  }

  /** addr.version of a network: only IPv6 texts contain ':'. */
  function Version(cidr: NetworkText): (v: nat)
    ensures v == 4 || v == 6
    ensures v == 6 <==> ':' in cidr
  {
    if ':' in cidr then 6 else 4
  }

  /** A service is the pair (name, destination port). */
  datatype Service = Service(name: string, port: int)

  /** PortsEnum.ANY: the wildcard service is the pair ("Any", 0) itself, so a
      parsed ("Any", 0) is the wildcard too. */
  const AnyPort: Service := Service("Any", 0)

  predicate IsWildcard(s: Service) {
    s == AnyPort
  }

  datatype RuleFields = RuleFields(
    src: seq<Endpoint>,
    dst: seq<Endpoint>,
    services: seq<Service>,
    action: Action)

  /** ForcepointRule: its service list has at least one element (min_length=1). */
  type ForcepointRule = r: RuleFields | |r.services| >= 1
    witness RuleFields([], [], [AnyPort], Allow)

  /** Constructing a rule, as the pydantic model validates it. */
  function NewRule(src: seq<Endpoint>, dst: seq<Endpoint>, services: seq<Service>, action: Action)
    : (r: Result<ForcepointRule>)
    ensures r.Ok? <==> |services| >= 1
    ensures r.Ok? ==> r.value.src == src && r.value.dst == dst
                      && r.value.services == services && r.value.action == action
    ensures r.Err? ==> r.error == ValidationError
  {
    if |services| >= 1 then Ok(RuleFields(src, dst, services, action)) else Err(ValidationError)
  }

  /** ForcePointRuleSet: the rules in policy order. */
  datatype ForcePointRuleSet = ForcePointRuleSet(root: seq<ForcepointRule>)
}
