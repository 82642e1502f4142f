# Telepresence traffic manager: ingress detection and agent compatibility

This project models two small decision procedures of the Telepresence traffic
manager for Kubernetes, and proves properties of them in Dafny.

- **Ingress detection** (`detect_ingress.dfy`, module `DetectIngress`). For each
  LoadBalancer service, in input order, the connector picks one port and
  advertises it as an `IngressInfo`. The five port filters are tried in priority
  order: name `"https"`, port 443, name `"http"`, port 80, then any port. Each
  filter scans the whole port list (`findTCPPort`), and the first filter that
  yields a port wins. A service with no selected port is skipped. Otherwise the
  record is `name.namespace`, with TLS iff the port number is 443, and that port
  number. `FindTcpPort` and `DetectIngressBehavior` are methods with the source's
  loops (early return, `break`, `continue`, appending to the result). They are
  proved equal to the specification functions `FirstAccepted` and `IngressFor`,
  and the lemmas state the selection policy about those functions.
- **Mechanism and agent compatibility** (`agent_state.dfy`, module `AgentState`).
  `MechanismsAreTheSame` decides whether two agents advertise the same intercept
  mechanisms. Whole records (name, product, version) are compared as a multiset.
  The comparison tallies each list into a map from mechanism to count. An empty
  list is never the same as anything. `AgentsAreCompatible` is false for no
  agents and true for one. For more agents it holds when every agent's list is
  the same as the first agent's. The assertions of the helper tests are proved as
  lemmas on fixture values chosen to satisfy them.
- `wrappers.dfy` holds the `Option` type that stands for a nil-able pointer.

### How line 16 parses

Read naturally, line 16 of `detect_ingress.go` would require an unset or TCP
protocol and the filter. Go's precedence makes it something else: `&&` binds
tighter than `||`, so `p.Protocol == "" || p.Protocol == "TCP" && filter(p)`
accepts a port with an unset protocol under every filter, including the
`"https"` one. The model follows the code as written (`DetectIngress.Accepts`).
The natural reading is `DetectIngress.IntendedAccepts`.
`UnsetProtocolShadowsHttps` gives a port list on which the code selects the
first port, with an unset protocol, under the `"https"` filter. Under the
natural reading, that filter rejects the first port and accepts the second.

### The mechanism helpers

The implementations of `mechanismsAreTheSame` and `agentsAreCompatible` are not
available. The model defines them as multiset equality of whole mechanism
records, and "every agent the same as the first". These definitions satisfy
every assertion of the tests.

## Model

| member | source | states |
|---|---|---|
| DetectIngress.Passes | pkg/client/connector/detect_ingress.go:24-30 | the last filter accepts every port; any other filter accepts only a port named "https" or "http" or numbered 443 or 80 |
| DetectIngress.Accepts | pkg/client/connector/detect_ingress.go:16 | the test as Go parses it: a port with an unset protocol is accepted by every filter, a "TCP" port iff it passes the filter, and any other protocol by none |
| DetectIngress.FirstAccepted | pkg/client/connector/detect_ingress.go:13-21 | the result is the index of a port the filter accepts, no earlier port is accepted, and there is no result iff no port is accepted |
| DetectIngress.FindTcpPort | pkg/client/connector/detect_ingress.go:13-21 | the scan with early return yields exactly the first accepted port, or nothing |
| DetectIngress.SelectFrom | pkg/client/connector/detect_ingress.go:24-41 | no port is selected iff every filter yields nothing; otherwise the selection is the result of some filter all of whose predecessors yield nothing |
| DetectIngress.SelectPort | pkg/client/connector/detect_ingress.go:36-41 | over the five filters in priority order: no port is selected iff every filter yields nothing; otherwise the selection is the result of a filter all of whose predecessors yield nothing |
| DetectIngress.FiltersTriedInPriorityOrder | pkg/client/connector/detect_ingress.go:24-41 | the selected port passes some filter, and no port at all passes any filter of higher priority |
| DetectIngress.FilterPriorityBeatsPortOrder | pkg/client/connector/detect_ingress.go:24-41 | a later port named "https" is selected ahead of an earlier port 80, because each filter scans all ports before the next filter is tried |
| DetectIngress.SelectedPortIsTcpCompatible | pkg/client/connector/detect_ingress.go:16 | a port whose protocol is neither unset nor "TCP" (such as "UDP") is never selected |
| DetectIngress.SelectedIffTcpCompatible | pkg/client/connector/detect_ingress.go:29-44 | a port is selected iff some port of the service has an unset or "TCP" protocol |
| DetectIngress.EmptyProtocolDecidesFirstFilter | pkg/client/connector/detect_ingress.go:16-40 | if some port has an unset protocol, the "https" filter already decides, and it picks the first port that has an unset protocol or is a TCP port named "https" |
| DetectIngress.AcceptsDiffersOnlyOnUnsetProtocol | pkg/client/connector/detect_ingress.go:16 | the code's test and the "TCP-compatible and filter" reading disagree exactly on ports with an unset protocol that fail the filter |
| DetectIngress.UnsetProtocolShadowsHttps | pkg/client/connector/detect_ingress.go:16-40 | on [metrics:9090 with unset protocol, https:443/TCP] the code selects the metrics port, which the other reading would reject under the "https" filter |
| DetectIngress.Entry | pkg/client/connector/detect_ingress.go:42-50 | a record is emitted iff the service has a TCP-compatible port; its host is name + "." + namespace; TLS holds iff the port is 443; its port is the number of the port that the filter selection picks, a TCP-compatible port of the service |
| DetectIngress.IngressFor | pkg/client/connector/detect_ingress.go:32-52 | the output has at most one record per service |
| DetectIngress.DetectIngressBehavior | pkg/client/connector/detect_ingress.go:9-53 | the loop over services and filters, with break, continue and append, returns exactly the specified list of records |
| DetectIngress.IngressForAppend | pkg/client/connector/detect_ingress.go:33-51 | the records for a concatenation of service lists are the concatenation of their records, so records keep the order of their services |
| DetectIngress.IngressForContains | pkg/client/connector/detect_ingress.go:33-51 | a record is in the output iff some input service yields it |
| DetectIngress.HttpsNameOnNon443IsNotTls | pkg/client/connector/detect_ingress.go:24-50 | a TCP port named "https" on 8443 is advertised as web.default:8443 without TLS |
| DetectIngress.Port443Selected | pkg/client/connector/detect_ingress.go:24-50 | on [8080/TCP, 443/TCP], neither named "https", the second filter selects port 443 ahead of the earlier port, and the record is web.default:443 with TLS |
| DetectIngress.NamedHttpBeatsFallback | pkg/client/connector/detect_ingress.go:24-41 | a port named "http" is selected ahead of an earlier port that only the fallback accepts |
| DetectIngress.FallbackSelectsAnyTcpPort | pkg/client/connector/detect_ingress.go:24-41 | a TCP port matching no named filter is selected by the fallback filter |
| DetectIngress.SkippedServices | pkg/client/connector/detect_ingress.go:42-44 | a service with only a UDP port, or with no port, yields no record |
| AgentState.Tally | cmd/traffic/cmd/manager/internal/state/data_internal_test.go:22-28 | the tally has a key for exactly the mechanisms in the list, each mapped to its number of occurrences |
| AgentState.TallyEqualIffSameMultiset | cmd/traffic/cmd/manager/internal/state/data_internal_test.go:22-29 | two lists have equal tallies iff they hold the same mechanisms with the same multiplicities |
| AgentState.MechanismsAreTheSame | cmd/traffic/cmd/manager/internal/state/data_internal_test.go:18-31 | true iff the first list is non-empty and both lists hold the same mechanism records with the same multiplicities |
| AgentState.EmptyIsNeverTheSame | cmd/traffic/cmd/manager/internal/state/data_internal_test.go:18-25 | an empty list is not the same as any list, including another empty one |
| AgentState.MechanismsAreTheSameSymmetric | cmd/traffic/cmd/manager/internal/state/data_internal_test.go:25-31 | the comparison does not depend on the order of its arguments |
| AgentState.MechanismsAreTheSameTransitive | cmd/traffic/cmd/manager/internal/state/data_internal_test.go:25-31 | lists the same as a common list are the same as each other |
| AgentState.SameUnderReordering | cmd/traffic/cmd/manager/internal/state/data_internal_test.go:21-29 | a non-empty list is the same as itself with two entries swapped |
| AgentState.DuplicateBreaksSameness | cmd/traffic/cmd/manager/internal/state/data_internal_test.go:23-28 | appending a second copy of a mechanism to one side makes equal lists differ |
| AgentState.AgentsAreCompatible | cmd/traffic/cmd/manager/internal/state/data_internal_test.go:43-47 | no agents are not compatible, and a single agent is |
| AgentState.CompatibleIffPairwiseSame | cmd/traffic/cmd/manager/internal/state/data_internal_test.go:43-47 | two or more agents are compatible iff every pair of them advertises the same mechanisms |
| AgentState.OneMismatchMakesIncompatible | cmd/traffic/cmd/manager/internal/state/data_internal_test.go:47 | two distinct agents whose mechanisms differ make the whole group incompatible |
| AgentState.MechanismHelperNegativeCases | cmd/traffic/cmd/manager/internal/state/data_internal_test.go:18-28 | empty lists, hello against helloPro, and the substituted and double-http lists are not the same as helloPro's list |
| AgentState.MechanismHelperPositiveCases | cmd/traffic/cmd/manager/internal/state/data_internal_test.go:21-31 | helloPro's list is the same as [http, grpc, tcp], demo1's as demo2's, and hello's as [tcp] |
| AgentState.AgentHelperCases | cmd/traffic/cmd/manager/internal/state/data_internal_test.go:43-47 | demo1 with demo2, hello alone and helloPro alone are compatible; no agents, and hello with helloPro, are not |

## Left out

- The Kubernetes lookup of LoadBalancer services (`findAllSvcByType`) is an API call. Its result is the input sequence of `DetectIngressBehavior`.
- Kubernetes and protobuf types are reduced to the fields that are read: a port's name, number and protocol, and a service's name, namespace and ports.
- Pointer identity of the selected `*ServicePort` and of the emitted `*IngressInfo` is not modelled. A port is identified by its index, and a record is a value.
- The test fixtures `GetTestMechanisms` and `GetTestAgents` are not part of this model. The constants `Tcp`, `Http`, `Httpv2`, `Grpc`, `Hello`, `HelloPro`, `Demo1` and `Demo2` are chosen values that satisfy the tests' assertions. They are not the fixtures' contents.
- The implementations of `mechanismsAreTheSame` and `agentsAreCompatible` are not available. The model's definitions satisfy every assertion of the tests, but they can differ from the real code on inputs the tests do not cover.
- Whether mechanisms of one protocol family (such as `http` and `httpv2`) should count as equal is open. Mechanisms are compared as whole records, by exact equality.
- The testing framework and its assertion helpers are not modelled.
