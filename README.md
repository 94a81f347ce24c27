# Forcepoint rule compiler, modelled in Dafny

This project models the rule compiler of policybot: the part that turns an
ordered list of firewall rules into a Forcepoint `generic_import_export` XML
policy document.

- A **rule** (`ForcepointRule`) has source and destination operands. Each operand
  is an IP address, an IP network, or one of the literals `External` and `Any`.
  A rule also has a non-empty list of services, `(name, port)` pairs in which
  `("Any", 0)` is the wildcard, and one of four actions.
- Three generators pick a rule's concrete operands out:
  - `get_addresses` and `get_networks` walk sources then destinations, keep the
    hosts or the networks, skip the literals, and raise `TypeError` on anything
    else;
  - `get_services` drops the wildcard.
- A **rule set** (`ForcePointRuleSet`) gathers the distinct concrete operands of
  all its rules into two reference tables:
  - a host is named by its address text;
  - a network is named `network-<cidr>`;
  - a service is named `<name>/<port>`.
- The rule set then emits, in this order:
  - the XML preamble;
  - the policy block, with rule *i* (from 1) rendered as `<rule_name>-i` at rank *i*;
  - the network, host and `service_tcp` catalog elements;
  - the closing tag.

The modules follow the program:

| module | file | models |
|---|---|---|
| `ForcepointTypes` | model.dfy | the data model: operands, services, actions, rules, rule sets, the exceptions |
| `ForcepointRules` | rule.dfy | the three generators and `ForcepointRule.to_xml` |
| `ForcepointRuleSets` | ruleset.dfy | `get_all_addr_refs`, `get_all_service_refs` and `ForcePointRuleSet.to_xml` |
| `Decimal` | decimal.dfy | `str()` of an integer, with its parser |
| `Text` | text.dfy | `"  " * k`, `"\n".join`, and counting the lines that start with a tag |
| `Collections` | collections.dfy | filters, maps, and sequences that list a set once each (iterating a Python set or dict) |

How the source maps onto the model:

- **Imperative code stays imperative.** Each loop of the source is a Dafny
  method with a loop. That method is proved against a specification function:
  - `HostsIn`/`NetworksIn`/`ConcreteServices` for the generators;
  - `AddrTable`/`ServiceTable` for the tables;
  - `RuleLines` for one rule;
  - `DocLines` for the document.

  Lemmas then state what those functions promise.
- **Exceptions** are results: `TypeError`, `KeyError` (a missing table entry)
  and `ValidationError` (an empty service list).
- **Dictionary and set order.** Python does not fix the order in which `to_xml`
  walks its two dictionaries. The model's catalog loops take their keys in an
  order the verifier does not fix either, and return that order as a ghost
  result. Every property of the document is proved for every such order.

## Model

| member | source | states |
|---|---|---|
| ForcepointTypes.NewRule | policybot/models/rules/forcepoint.py:27-33 | a rule is built exactly when its service list is non-empty (`min_length=1`) and then keeps the given fields; otherwise it is a ValidationError |
| ForcepointRules.GetAddresses | policybot/models/rules/forcepoint.py:38-47 | succeeds exactly when no operand of sources-then-destinations is invalid; yields exactly the host operands in operand order (networks and the literals skipped); fails with TypeError otherwise |
| ForcepointRules.GetNetworks | policybot/models/rules/forcepoint.py:49-58 | the same for networks: exactly the network operands in order, TypeError exactly when some operand is invalid |
| ForcepointRules.GetServices | policybot/models/rules/forcepoint.py:60-63 | yields the services other than ("Any", 0) in order; a service is yielded exactly when it is in the list and is not the wildcard |
| ForcepointRules.RenderEndpointRefs | policybot/models/rules/forcepoint.py:72-85 | one line per operand in input order: External as `value="External" ref_key="111"`, Any as `value="ANY"`, anything else as its table name; KeyError exactly when some operand of neither kind is missing from the table |
| ForcepointRules.RenderServiceRefs | policybot/models/rules/forcepoint.py:86-90 | one line per service in order: the wildcard as `value="ANY"`, others by table name; KeyError exactly when a non-wildcard service is missing |
| ForcepointRules.RuleToXml | policybot/models/rules/forcepoint.py:65-97 | `to_xml` of a rule succeeds exactly when every lookup it makes is defined. It fails only with KeyError. Its result is the newline-join of preamble, sources, destinations, services, action and postamble |
| ForcepointRules.RuleReferenceCounts | policybot/models/rules/forcepoint.py:72-97 | a rule's fragment has exactly \|src\| match_source_ref lines, \|dst\| match_destination_ref lines and \|services\| match_service_ref lines |
| ForcepointRules.RuleCountsSplit | policybot/models/rules/forcepoint.py:92-97 | no structural line of a fragment (preamble, block open/close, action, postamble) starts with a reference tag, so only the three reference blocks count |
| ForcepointRuleSets.AddrSetMembers | policybot/models/rules/forcepoint.py:108-110 | the set gathered from the generators holds exactly the hosts and networks that occur in some rule |
| ForcepointRuleSets.NameAddresses | policybot/models/rules/forcepoint.py:112-120 | the naming loop names every host by its text and every network as "network-" + its text, skips the literals, and raises TypeError exactly when an invalid operand is in the set |
| ForcepointRuleSets.GetAllAddrRefs | policybot/models/rules/forcepoint.py:104-122 | `get_all_addr_refs` fails exactly when some rule has an invalid operand, and only with TypeError; otherwise it returns the address table |
| ForcepointRuleSets.AddrTableContents | policybot/models/rules/forcepoint.py:104-122 | the address table's keys are exactly the concrete operands of all rules (literals never). A host maps to its address and a network to "network-" + cidr. No two keys share a name |
| ForcepointRuleSets.AddrNameRoundTrip | policybot/models/rules/forcepoint.py:113-116 | an address name reads back as the address it names |
| ForcepointRuleSets.ServiceSetMembers | policybot/models/rules/forcepoint.py:128-129 | the set gathered from get_services holds exactly the non-wildcard services of some rule |
| ForcepointRuleSets.GetAllServiceRefs | policybot/models/rules/forcepoint.py:124-134 | `get_all_service_refs` returns the service table |
| ForcepointRuleSets.ServiceTableContents | policybot/models/rules/forcepoint.py:124-134 | the service table's keys are exactly the non-wildcard services of all rules, each named name + "/" + str(port), and no two keys share a name |
| ForcepointRuleSets.ServiceNameRoundTrip | policybot/models/rules/forcepoint.py:132 | `"/".join(map(str, service))` reads back as the service, port included (negative ports too) |
| ForcepointRuleSets.TablesResolve | policybot/models/rules/forcepoint.py:149-166 | with the tables built from the whole set, every lookup rendering any rule of the set makes is defined: no KeyError |
| ForcepointRuleSets.RenderAddressCatalog | policybot/models/rules/forcepoint.py:152-160 | the address loop visits every key of the table once. It adds a host element per host key and a network element per network key, skips the literals, and raises TypeError exactly when the table holds an invalid key |
| ForcepointRuleSets.RenderServiceCatalog | policybot/models/rules/forcepoint.py:162-163 | the service loop visits every key once and emits its service_tcp element |
| ForcepointRuleSets.RenderRule | policybot/models/rules/forcepoint.py:166 | the rule at 0-based position i is rendered with name rule_name + "-" + (i+1) and rank i+1; KeyError exactly when a lookup is missing |
| ForcepointRuleSets.RenderRules | policybot/models/rules/forcepoint.py:165-166 | the rule loop renders every rule in root order, each with its 1-based rank; it fails, with KeyError only, exactly when some rule has a missing lookup |
| ForcepointRuleSets.ToXml | policybot/models/rules/forcepoint.py:136-176 | the document is produced exactly when no rule has an invalid operand, and fails only with TypeError. The catalog loops visit each table key once, every rule resolves against the tables, and the text is the newline-join of the document's lines in some visiting order |
| ForcepointRuleSets.PolicyLayout | policybot/models/rules/forcepoint.py:165-172 | the policy block is fw_policy and access_entry opening lines, then the fragment of rule j+1 (name rule_name-(j+1), rank j+1) at position j in root order, then the closing lines |
| ForcepointRuleSets.DocumentSections | policybot/models/rules/forcepoint.py:143-176 | the document's lines are, in order and with nothing between them: the three preamble lines, the policy block, the networks, the hosts, the services, and `</generic_import_export>` |
| ForcepointRuleSets.HostCatalog | policybot/models/rules/forcepoint.py:152-154 | in any visiting order the host section has one element per host key, and each element is a host key's element naming it by its table name and giving its address |
| ForcepointRuleSets.NetworkCatalog | policybot/models/rules/forcepoint.py:155-156 | the same for networks: one element per network key, with its version, its text and its name, and nothing else |
| ForcepointRuleSets.NetworkLineVersion | policybot/models/rules/forcepoint.py:156 | a network element opens as `<network ipv6_network="` exactly when the network is an IPv6 one (its text holds a ':'), and as `<network ipv4_network="` exactly when it is not |
| ForcepointRuleSets.ServiceCatalog | policybot/models/rules/forcepoint.py:162-163 | one service_tcp element per service-table entry, with that entry's name and min_dst_port equal to its port, and nothing else |
| ForcepointRuleSets.CatalogOrderIrrelevant | policybot/models/rules/forcepoint.py:152-163 | any two visiting orders give the network, host and service sections as permutations of each other |
| ForcepointRuleSets.ReferencesNameCatalogEntries | policybot/models/rules/forcepoint.py:149-166 | every concrete host, network or service a rule of the set refers to has a table name, and the catalog section of its kind holds the element with that name |
| Decimal.IntToStringRoundTrip | policybot/models/rules/forcepoint.py:132 | the decimal text of an integer, as Python's str() writes it, parses back to the integer |
| Decimal.IntToStringInjective | policybot/models/rules/forcepoint.py:163 | distinct ports get distinct min_dst_port texts |

## Left out

- `frontend/src/pages/Home.js` (the page that uploads a file and shows the result) is not part of this model: it is user interface and asynchronous I/O.
- Pydantic parsing is not modelled. This covers field aliases, `use_enum_values`, and turning JSON into addresses and networks. Rules are taken as already-classified values, and any operand pydantic would let through that is neither address, network nor literal is the `Invalid` variant, which carries no payload.
- `ipaddress` internals are abstract. An address or network is its canonical text (`str(addr)`): an address text holds no '/' and a network text does. Two operands are equal when their texts are, and a network's version is read from its text (':' for IPv6).
- `BaseRuleSet` and `ActionsEnum` (`models.rules.base_rule`) are not part of this model. The action is the four-valued `ForcepointActions` enum.
- Python set and dictionary iteration order is not modelled. The tables are Dafny maps. The catalog loops' order is a ghost result that the lemmas quantify over.
- The generators are lazy in Python. The model returns the whole sequence. `get_all_addr_refs` consumes each generator to the end, so a `TypeError` halfway leaves nothing observable behind.
- The exceptions' message texts are not modelled, only which exception is raised.
- Source and destination lists may be empty: `src_addrs` and `dst_addrs` carry no `min_length` (policybot/models/rules/forcepoint.py:28-29), unlike `services`, so the model allows empty lists.
- ForcepointRules.RuleReferenceCounts counts the entries of the list `to_xml` joins, not the lines of the joined text. The closing element of the services block carries an embedded newline, so that one entry is two lines of text.
- ForcepointRules.GetAddresses and ForcepointRules.GetNetworks state their result as `HostsIn`/`NetworksIn` of the operands. Membership follows from the contract of `Filter`, and order from the definition of `Filter` (through `FilterAppend` and `FilterStep`), rather than being restated on each method.
- Indentation is rendered exactly as the code writes it, but no lemma is about whitespace beyond the reference tags.
