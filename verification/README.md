# extension-gcp: virtual-machine discovery and state-change attack

A Dafny model of the `extvm` package of the Steadybit extension for Google
Cloud Platform. The package has two parts.

- **VM discovery.** It pages through the compute API's aggregated instance
  list for the configured project. It turns every compute instance into a
  discovery target of type `com.steadybit.extension_gcp.vm`:
  - fourteen fixed attributes, one value each;
  - one `gcp-vm.label.<lowered key>` attribute per label;
  - a comma-joined `gcp-vm.tags` attribute when the instance has a tag record.

  It then drops the attribute keys the operator excluded. It also announces
  the enrichment rules that copy VM attributes onto hosts, Kubernetes nodes,
  Windows hosts, containers and any configured target type.
- **VM state-change attack.** `Prepare` checks that the target carries a
  VM name, a zone and a project, and that an action was chosen. Only then does
  it fill the attack state. `Start` sends exactly one of four compute
  requests (reset, stop, delete, suspend) for that VM, or reports an error.

## How it is modelled

The global configuration is an explicit `Config.Specification` parameter.

Go's nil-able values:
- nil-able pointers are `Option`;
- `(value, error)` results are `Result`;
- reading a missing key of a Go map of slices gives the empty list.

The compute API's list iterator is a finite sequence of `Next` results,
`Pair(key, instances) | Done | Err(message)`. A sequence that ends without
`Done` is read as if `Done` followed.

The order in which Go's `range` visits an instance's label map is random. It
is an explicit `order` parameter listing exactly the label keys, and the last
write wins. The contracts hold for every order.

`Start` has no real client. It takes two inputs:
- the client provider's failure, if the provider failed;
- the compute API's answer, if it rejected the request.

It returns the requests it sent, as a log of `ClientCall(op, zone, project,
instance)`, together with its error.

Modules, one file each:
- `Wrappers`: `Option` and `Result`.
- `Strings`: the Go string primitives the code uses, over `seq<char>`.
- `Config`: the configuration, its default and the VM target type.
- `Targets`: the target record and attribute exclusion.
- `Discovery`: paging, per-instance normalisation and batch conversion.
- `EnrichmentRules`: the rule builders, the rule list and its properties.
- `StateAction`: `Prepare` and `Start`.
- `Properties`: lemmas that connect discovery with the attack.
- `Scenarios`: the discovery unit test's instance, carried through the model.

What the code does at the points where a reader might expect otherwise:
- The label attributes are `gcp-vm.label.<lowered key>` and the tags
  attribute is `gcp-vm.tags`.
- The zone is the text after the last `/` of the zone URL only when that `/`
  is at an index greater than 0; otherwise it is `""`. So `"/us-east1-a"`
  gives `""`.
- There are four baseline enrichment rules: host, Kubernetes node, Windows
  host and container. The Windows-host rule joins on `gcp-vm.id` on both
  sides; the other three join on the hostname.
- A configured rule's id is
  `com.steadybit.extension_gcp.vm.instance-to-<target type>`, with the full
  target type.
- A missing instance id makes the Go code panic on the dereference. The model
  makes the id a precondition of the conversion.
- The discovery test expects the zone URL under `gcp-vm.zone-url`, but the
  code writes `gcp.zone-url`. The model writes `gcp.zone-url`.

## Model

| member | source | states |
|---|---|---|
| Discovery.GetAllVirtualMachinesInstances | extvm/vm_discovery.go:221-252 | An empty project id fails with "project id is not set" whatever the iterator holds. Otherwise the first `Err` before any `Done` is the result, with no instances. Otherwise the result is every pair's instances, concatenated in order, up to the first `Done`. |
| Discovery.ConcatMembers | extvm/vm_discovery.go:239-249 | An instance is in the collected list exactly when some pair before the stop holds it. |
| Discovery.PagesAfterStopIgnored | extvm/vm_discovery.go:230-236 | The outcome depends only on the results up to and including the first `Done` or `Err`. Two iterators that agree up to there give the same outcome. |
| Discovery.StopIndexAt | extvm/vm_discovery.go:230-238 | Draining stops exactly at the first result that is not a pair. |
| Discovery.GetStringValue | extvm/vm_discovery.go:324-329 | A present string is returned as is; an absent one reads as "". |
| Discovery.GetHostname | extvm/vm_discovery.go:306-311 | The hostname if present, otherwise the name, otherwise "". |
| Discovery.ZoneOfUrlIsZoneOf | extvm/vm_discovery.go:297-304 | The zone has no '/'. When some '/' follows the first character, the zone is the whole text after the last '/'. When none does, the zone is "". |
| Discovery.ZoneOfTestUrl | extvm/vm_discovery_test.go:43 | The test's zone URL "/asd/us-east1-a" gives "us-east1-a". |
| Discovery.ZoneOfLeadingSlashOnly | extvm/vm_discovery.go:299-303 | A URL whose only '/' is at index 0 gives "", because the check is `> 0`. |
| Discovery.FirstMetadataValue | extvm/vm_discovery.go:313-322 | The value of the first item whose key matches, or "" when no item's key matches. Absent keys and values read as "". |
| Discovery.GetMetadata | extvm/vm_discovery.go:313-322 | Absent metadata gives ""; present metadata gives the first matching item's value. |
| Discovery.WriteLabelsOrigin | extvm/vm_discovery.go:281-283 | Every attribute the label loop adds is `gcp-vm.label.` plus some visited label's lowered key, holding that label's value. |
| Discovery.WriteLabelsUnique | extvm/vm_discovery.go:281-283 | A label whose lowered key no other label shares ends up with exactly its own value, whatever the visiting order. |
| Discovery.LabelKeyInjective | extvm/vm_discovery.go:282 | Two labels map to the same attribute exactly when their lowered keys are equal. |
| Discovery.FixedKeysOutsideLabels | extvm/vm_discovery.go:265-286 | No fixed attribute name starts with `gcp-vm.label.` or equals `gcp-vm.tags`, so the label loop and the tags line never overwrite a fixed attribute. |
| Discovery.KeyNameInjective | extvm/vm_discovery.go:265-279 | The fourteen fixed attribute names are pairwise distinct, so each holds the value written for it. |
| Discovery.WriteFixed | extvm/vm_discovery.go:265-279 | Every written fixed key holds exactly one value, the one computed for it. No label attribute and no tags attribute is written. |
| Discovery.InstanceToTarget | extvm/vm_discovery.go:262-295 | The target id is the decimal instance id, the type is the VM target type, and the label is the name or "". All fourteen fixed attributes hold one value each. `gcp-vm.tags` is present exactly when the tag list is, holding the items joined by ','. |
| Discovery.InstanceToTargetIdentity | extvm/vm_discovery.go:266-267 | `gcp-vm.id` holds the target id and `gcp-vm.name` holds the target label. `gcp.project.id` holds the configured project. The id is all digits and reads back as the instance id. |
| Discovery.InstanceToTargetLabel | extvm/vm_discovery.go:281-283 | Each label's attribute is present and holds the value of a label with the same lowered key. When no other label lowers to that key, it holds exactly the label's own value. |
| Discovery.InstanceToTargetNoOtherKeys | extvm/vm_discovery.go:262-286 | Every attribute is a fixed one, `gcp-vm.tags` or a label attribute of some label; nothing else is added. |
| Discovery.ConvertAllAt | extvm/vm_discovery.go:254-258 | The i-th converted target is the conversion of the i-th instance. |
| Discovery.InstancesToTargets | extvm/vm_discovery.go:254-260 | One target per instance, in input order, then the configured keys are excluded. The loop result equals the reference: the exclusion applied to the per-instance conversions. |
| Discovery.DiscoveredTargetAt | extvm/vm_discovery.go:254-260 | The i-th reported target is the i-th instance's target with the configured keys removed. |
| Targets.ExcludeAttributes | extvm/vm_discovery.go:259 | Id, type and label are kept. No excluded key remains. Every other key is kept exactly when it was there, with the same values. |
| Targets.ApplyAttributeExcludes | extvm/vm_discovery.go:259 | The batch keeps its length and order, and each target is excluded on its own. |
| Targets.ExcludeIdempotent | extvm/vm_discovery.go:259 | Excluding twice with the same keys is excluding once. |
| Targets.ExcludeAbsentIsNoOp | extvm/vm_discovery.go:259 | Excluding keys that no target carries changes nothing. |
| Config.Default | config/config.go:15-24 | The empty environment has no project id and no exclusions. The enrichment target types are, in order, the JVM instance, container, Kubernetes deployment, pod, daemonset and statefulset types. |
| EnrichmentRules.ToHostRule | extvm/vm_discovery.go:354-393 | Id `...gcp-vm-to-<name>`. The VM is joined to the target type by `gcp-vm.hostname` ↔ `host.hostname`. The rule copies the label, VM and cluster prefixes plus the zone and project. |
| EnrichmentRules.ToHostWindowsRule | extvm/vm_discovery.go:395-434 | Id `...gcp-vm-to-host-windows`. Windows hosts are joined by `gcp-vm.id` ↔ `gcp-vm.id`. The rule copies the same attributes as the other baseline rules. |
| EnrichmentRules.ToContainerRule | extvm/vm_discovery.go:436-476 | Id `...gcp-vm-to-container`. Containers are joined by `gcp-vm.hostname` ↔ `container.host`. The rule copies the same attributes. |
| EnrichmentRules.VmToXRule | extvm/vm_discovery.go:478-506 | Id `com.steadybit.extension_gcp.vm.instance-to-<type>`, joined by hostname. It copies only `gcp.zone` and `gcp.project.id` with `Equals` matchers. |
| EnrichmentRules.BaselineRules | extvm/vm_discovery.go:338-343 | Four rules, whose destinations are host, Kubernetes node, Windows host and container, in that order. |
| EnrichmentRules.DescribeEnrichmentRules | extvm/vm_discovery.go:331-352 | The loop builds exactly the reference list: the baseline, then one configured rule per configured type outside the default list, in configuration order. |
| EnrichmentRules.NonDefaultAppend | extvm/vm_discovery.go:344-350 | Filtering the configured list distributes over concatenation, so configuration order is kept. |
| EnrichmentRules.NonDefaultCount | extvm/vm_discovery.go:344-350 | A default type gets no configured rule. Any other type gets one rule per occurrence, so duplicates are not removed. |
| EnrichmentRules.NonDefaultMembers | extvm/vm_discovery.go:344-350 | A type gets a configured rule exactly when it is configured and not in the default list. |
| EnrichmentRules.RuleCount | extvm/vm_discovery.go:331-352 | The list has four rules plus one per configured entry outside the defaults. |
| EnrichmentRules.DefaultConfigurationRules | config/config.go:23 | With the default configuration, five configured types survive the filter (the container type is already covered), giving nine rules. |
| EnrichmentRules.DefaultConfigurationNonDefault | config/config.go:23 | With the default configuration the filter keeps every type but the container type, in order. |
| EnrichmentRules.ConfiguredIdInjective | extvm/vm_discovery.go:479 | Two configured rules share an id exactly when they are for the same target type. |
| EnrichmentRules.BaselineIdsAreNotConfigured | extvm/vm_discovery.go:331-352 | No baseline id can equal a configured rule's id, whatever the type. |
| EnrichmentRules.RuleIdsDistinct | extvm/vm_discovery.go:331-352 | The rule ids are pairwise distinct exactly when no type outside the defaults is configured twice. |
| EnrichmentRules.DefaultTypesCoveredOnce | extvm/vm_discovery.go:331-352 | Each default target type is the destination of exactly one rule, the baseline rule at its position. |
| EnrichmentRules.ConfiguredRulesShape | extvm/vm_discovery.go:344-350 | Every rule after the baseline is for a configured type outside the defaults. It carries that type's id and copies only zone and project. |
| StateAction.Prepare | extvm/vm_attack_state.go:103-129 | Prepare succeeds exactly when name, zone and project each have a value and an action is set. On success the state holds the first value of each attribute and the action. On failure the state is unchanged. The first failing check, in the order name, zone, project, action, decides the error. |
| StateAction.PrepareIdempotent | extvm/vm_attack_state.go:103-129 | Preparing again with the same target and action changes nothing further. |
| StateAction.PrepareIgnoresPriorState | extvm/vm_attack_state.go:124-127 | A successful Prepare overwrites every state field, so its result does not depend on the prior state. |
| StateAction.OperationForIsName | extvm/vm_attack_state.go:137-162 | An action selects an operation exactly when it is one of the four names, compared exactly. The operation selected is the one with that name. |
| StateAction.Start | extvm/vm_attack_state.go:131-170 | Start sends at most one request. A provider failure gives the client-init error and sends nothing. An action naming no operation gives "Unknown state change attack '<action>'" and sends nothing. Otherwise it sends exactly the matching request for the state's zone, project and VM. The call's failure is wrapped with the action and the VM name; no failure means no error. |
| StateAction.StartSucceedsIffOneAcceptedCall | extvm/vm_attack_state.go:131-170 | Start returns no error exactly when the provider worked, the action names an operation and the request was accepted. Then exactly one request, for that action's operation, was sent. |
| Properties.ReportedTargetPassesPrepare | extvm/vm_attack_state.go:103-129 | A discovered VM passes Prepare unless the VM name, zone or project attribute is excluded. The state then holds the VM's name, its zone and the configured project. |
| Properties.ExcludedNameFailsPrepare | extvm/vm_attack_state.go:104-107 | Excluding `gcp-vm.name` from discovery makes every discovered VM fail Prepare with the missing-name error. |
| Properties.ReportedTargetStart | extvm/vm_attack_state.go:131-170 | Preparing a discovered VM with an operation's name and starting it sends exactly that operation for the VM, its zone and the project. It fails exactly when the request is rejected. |
| Strings.DecimalRoundTrip | extvm/vm_discovery.go:266 | The decimal rendering of the instance id reads back as the id. |
| Strings.SplitJoin | extvm/vm_discovery.go:285 | Joining a non-empty tag list with ',' loses nothing when no tag contains ','. Splitting the joined value gives the tags back. |
| Discovery.EmptyTagsLookLikeBlankTag | extvm/vm_discovery.go:284-286 | A tag record with no items and one holding a single empty tag both give `gcp-vm.tags` = `[""]`. |
| Scenarios.DiscoveryTestScenario | extvm/vm_discovery_test.go:27-94 | The test instance, with `gcp-vm.label.tag1` excluded, gives one target with id "42", label "myVm", zone "us-east1-a", tags "Tags1,Tags2" and `gcp-vm.label.tag2` = "Value2". `gcp-vm.label.tag1` is absent. This holds for either label visiting order. |
| Scenarios.DiscoveryTestFixedAttributes | extvm/vm_discovery_test.go:77-88 | The test instance's target, after the exclusion, carries every fixed attribute, with hostname "asd", description, CPU platform, machine type, source image, status and status message as given, the zone URL under `gcp.zone-url`, project "p_extension_gcp", cluster name "my_cluster" and cluster location "us-east1-a". |

## Left out

- Caching and scheduling of discovery runs (the cached discovery wrapper, refresh interval, single-flight runs): they live in the discovery library and concern concurrency.
- The inner workings of the discovery library's attribute exclusion: only exact-key removal is modelled.
- The constant descriptions (`Describe`, `DescribeTarget`, `DescribeAttributes`, the action's `Describe`) and the enrichment rule `Version`: they are constant UI data and build metadata.
- `DiscoverTargets`: it only obtains a client, closes it and chains the two modelled steps, wrapping a client failure with "failed to get client: " and a collection failure with "failed to get all virtual machines: ". Client creation (`extvm/client.go`) is a wrapper over the GCP SDK and is not part of this model.
- `main.go`, the end-to-end test and all logging.
- Discovery.InstanceToTarget: a nil instance id is a precondition, because the Go code panics when it dereferences it.
- StateAction.Prepare: the action is typed `Option<string>`. A non-string action value, on which the Go type assertion panics, is not represented.
- Prepare and Start always return a nil result pointer; only their errors and effects are modelled.
- Strings.Lower: `strings.ToLower` is modelled as ASCII lowering; other Unicode case mappings are not modelled.
- Discovery.InstanceToTargetLabel: when two label keys lower to the same key, Go's map order decides which value wins. The contract states only that the value is one of theirs.
- The discovery test's expectation of `gcp-vm.zone-url` is not modelled. The code writes `gcp.zone-url`, and the model follows the code.
- Scenarios.DiscoveryTestScenario: the test's `gcp-vm.zone-url` expectation is stated under `gcp.zone-url`, where the code writes it (see `Scenarios.DiscoveryTestFixedAttributes`).
- Strings.SplitJoin: the round trip needs a non-empty tag list. An empty tag record and a record with one empty tag give the same `gcp-vm.tags` value (`Discovery.EmptyTagsLookLikeBlankTag`), so the attribute cannot tell them apart.
