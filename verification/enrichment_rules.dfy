/** The enrichment rules the VM discovery announces: which attributes of a
    discovered VM are copied onto which other targets, and how the two sides
    are joined. */
module EnrichmentRules {
  import Config

  /** How an attribute name is matched when copying. */
  datatype Matcher = Equals | StartsWith

  datatype AttributeMatcher = AttributeMatcher(matcher: Matcher, name: string)

  /** One side of a rule: a target type and the attributes it is selected by. */
  datatype Endpoint = Endpoint(targetType: string, selector: map<string, string>)

  /** A rule's build version is left out: it is build metadata. */
  datatype EnrichmentRule = EnrichmentRule(id: string, src: Endpoint, dest: Endpoint,
                                           attributes: seq<AttributeMatcher>)

  const RuleIdPrefix: string := "com.steadybit.extension_gcp."
  const BaselineIdPrefix: string := RuleIdPrefix + "gcp-vm-to-"
  const ConfiguredIdPrefix: string := RuleIdPrefix + "vm.instance-to-"

  const HostType: string := "com.steadybit.extension_host.host"
  const KubernetesNodeType: string := "com.steadybit.extension_kubernetes.kubernetes-node"
  const HostWindowsType: string := "com.steadybit.extension_host_windows.host"
  const ContainerType: string := "com.steadybit.extension_container.container"

  /** The target types the four baseline rules already cover. */
  const DefaultEnrichmentTargetTypes: seq<string> := [HostType, KubernetesNodeType, HostWindowsType, ContainerType]

  /** Everything a baseline rule copies: every VM and cluster attribute, the
      zone and the project. */
  const CopiedAttributes: seq<AttributeMatcher> := [
    AttributeMatcher(StartsWith, "gcp-vm.label."),
    AttributeMatcher(StartsWith, "gcp-vm."),
    AttributeMatcher(StartsWith, "gcp-kubernetes-engine."),
    AttributeMatcher(Equals, "gcp.zone"),
    AttributeMatcher(Equals, "gcp.project.id")
  ]

  /** What a rule for a configured target type copies: the zone and the project. */
  const LocationAttributes: seq<AttributeMatcher> := [
    AttributeMatcher(Equals, "gcp.zone"),
    AttributeMatcher(Equals, "gcp.project.id")
  ]

  /** Selector values that refer to an attribute of the other side. */
  function DestRef(key: string): string { "${dest." + key + "}" }
  function SrcRef(key: string): string { "${src." + key + "}" }

  /** The rule's two sides select each other: the source is the VM target,
      selected by `srcKey` holding the destination's `destKey`, and the
      destination, of type `destType`, is selected by `destKey` holding the
      source's `srcKey`. */
  predicate Joins(rule: EnrichmentRule, destType: string, srcKey: string, destKey: string) {
    && rule.src.targetType == Config.TargetIdVm
    && rule.src.selector.Keys == {srcKey}
    && rule.src.selector[srcKey] == DestRef(destKey)
    && rule.dest.targetType == destType
    && rule.dest.selector.Keys == {destKey}
    && rule.dest.selector[destKey] == SrcRef(srcKey)
  }

  /** A baseline rule joining the VM's hostname to a host-like target's hostname. */
  function ToHostRule(targetName: string, targetType: string): (r: EnrichmentRule)
    ensures r.id == BaselineIdPrefix + targetName
    ensures Joins(r, targetType, "gcp-vm.hostname", "host.hostname")
    ensures r.attributes == CopiedAttributes
  {
    EnrichmentRule(
      BaselineIdPrefix + targetName,
      Endpoint(Config.TargetIdVm, map["gcp-vm.hostname" := DestRef("host.hostname")]),
      Endpoint(targetType, map["host.hostname" := SrcRef("gcp-vm.hostname")]),
      CopiedAttributes)
  }

  /** The baseline rule for Windows hosts, which join on the VM id rather than
      on the hostname. */
  function ToHostWindowsRule(): (r: EnrichmentRule)
    ensures r.id == BaselineIdPrefix + "host-windows"
    ensures Joins(r, HostWindowsType, "gcp-vm.id", "gcp-vm.id")
    ensures r.attributes == CopiedAttributes
  {
    EnrichmentRule(
      BaselineIdPrefix + "host-windows",
      Endpoint(Config.TargetIdVm, map["gcp-vm.id" := DestRef("gcp-vm.id")]),
      Endpoint(HostWindowsType, map["gcp-vm.id" := SrcRef("gcp-vm.id")]),
      CopiedAttributes)
  }

  /** The baseline rule for containers, joined on the container's host. */
  function ToContainerRule(): (r: EnrichmentRule)
    ensures r.id == BaselineIdPrefix + "container"
    ensures Joins(r, ContainerType, "gcp-vm.hostname", "container.host")
    ensures r.attributes == CopiedAttributes
  {
    EnrichmentRule(
      BaselineIdPrefix + "container",
      Endpoint(Config.TargetIdVm, map["gcp-vm.hostname" := DestRef("container.host")]),
      Endpoint(ContainerType, map["container.host" := SrcRef("gcp-vm.hostname")]),
      CopiedAttributes)
  }

  /** The rule for a configured target type: joined on the hostname, copying
      only the zone and the project. */
  function VmToXRule(destTargetType: string): (r: EnrichmentRule)
    ensures r.id == ConfiguredIdPrefix + destTargetType
    ensures Joins(r, destTargetType, "gcp-vm.hostname", "host.hostname")
    ensures r.attributes == LocationAttributes
  {
    EnrichmentRule(
      ConfiguredIdPrefix + destTargetType,
      Endpoint(Config.TargetIdVm, map["gcp-vm.hostname" := DestRef("host.hostname")]),
      Endpoint(destTargetType, map["host.hostname" := SrcRef("gcp-vm.hostname")]),
      LocationAttributes)
  }

  /** The four rules announced whatever the configuration says. */
  function BaselineRules(): (r: seq<EnrichmentRule>)
    ensures |r| == 4
    ensures forall i :: 0 <= i < 4 ==> r[i].dest.targetType == DefaultEnrichmentTargetTypes[i]
  {
    [ToHostRule("host", HostType), ToHostRule("k8s-node", KubernetesNodeType),
     ToHostWindowsRule(), ToContainerRule()]
  }

  // ---------------------------------------------------------------------------
  // Reference definition of the configured part
  // ---------------------------------------------------------------------------

  /** The configured target types the baseline does not cover, in configuration
      order, duplicates kept. */
  function NonDefault(types: seq<string>): seq<string> {
    if |types| == 0 then []
    else if types[0] in DefaultEnrichmentTargetTypes then NonDefault(types[1..])
    else [types[0]] + NonDefault(types[1..])
  }

  /** One configured rule per type, in order. */
  function RulesFor(types: seq<string>): seq<EnrichmentRule> {
    seq(|types|, i requires 0 <= i < |types| => VmToXRule(types[i]))
  }

  /** The complete list the discovery announces for a configured type list. */
  function ExpectedRules(configured: seq<string>): seq<EnrichmentRule> {
    BaselineRules() + RulesFor(NonDefault(configured))
  }

  predicate NoDuplicates(s: seq<string>) {
    forall i, j :: 0 <= i < j < |s| ==> s[i] != s[j]
  }

  /** The number of occurrences of `x` in `s`. */
  function Count(s: seq<string>, x: string): nat {
    if |s| == 0 then 0 else (if s[0] == x then 1 else 0) + Count(s[1..], x)
  }

  /** Builds the rule list as the discovery does: the baseline, then a rule for
      each configured type outside the defaults, skipping the others. */
  method DescribeEnrichmentRules(config: Config.Specification) returns (rules: seq<EnrichmentRule>)
    ensures rules == ExpectedRules(config.enrichVmDataForTargetTypes)
  {
    var configured := config.enrichVmDataForTargetTypes;
    rules := BaselineRules();
    var i := 0;
    while i < |configured|
      invariant 0 <= i <= |configured|
      invariant rules == BaselineRules() + RulesFor(NonDefault(configured[..i]))
    {
      NonDefaultAppend(configured[..i], [configured[i]]);
      assert configured[..i + 1] == configured[..i] + [configured[i]];
      if configured[i] !in DefaultEnrichmentTargetTypes {
        rules := rules + [VmToXRule(configured[i])];
      }
      i := i + 1;
    }
    assert configured[..i] == configured;
  }

  // ---------------------------------------------------------------------------
  // Properties
  // ---------------------------------------------------------------------------

  /** Filtering distributes over concatenation, so the configured order is kept. */
  lemma {:induction false} NonDefaultAppend(a: seq<string>, b: seq<string>)
    ensures NonDefault(a + b) == NonDefault(a) + NonDefault(b)
  {
    if |a| == 0 {
      assert a + b == b;
    } else {
      assert (a + b)[1..] == a[1..] + b;
      NonDefaultAppend(a[1..], b);
    }
  }

  /** A default type never gets a configured rule; every other type gets one
      rule per occurrence in the configuration, duplicates included. */
  lemma {:induction false} NonDefaultCount(types: seq<string>, x: string)
    ensures x in DefaultEnrichmentTargetTypes ==> Count(NonDefault(types), x) == 0
    ensures x !in DefaultEnrichmentTargetTypes ==> Count(NonDefault(types), x) == Count(types, x)
  {
    if |types| > 0 {
      NonDefaultCount(types[1..], x);
      if types[0] !in DefaultEnrichmentTargetTypes {
        assert ([types[0]] + NonDefault(types[1..]))[1..] == NonDefault(types[1..]);
      }
    }
  }

  /** Every filtered type is a configured type outside the defaults. */
  lemma {:induction false} NonDefaultMembers(types: seq<string>)
    ensures forall t :: t in NonDefault(types) <==> t in types && t !in DefaultEnrichmentTargetTypes
  {
    if |types| > 0 {
      NonDefaultMembers(types[1..]);
      assert forall t :: t in types <==> t == types[0] || t in types[1..];
    }
  }

  /** The rule count is four plus the number of configured entries outside the
      defaults. */
  lemma {:induction false} RuleCount(configured: seq<string>)
    ensures |ExpectedRules(configured)| == 4 + |configured| - CountDefaults(configured)
  {
    NonDefaultLength(configured);
  }

  /** How many configured entries a baseline rule already covers. */
  function CountDefaults(types: seq<string>): (n: nat)
    ensures n <= |types|
  {
    if |types| == 0 then 0
    else (if types[0] in DefaultEnrichmentTargetTypes then 1 else 0) + CountDefaults(types[1..])
  }

  lemma {:induction false} NonDefaultLength(types: seq<string>)
    ensures |NonDefault(types)| == |types| - CountDefaults(types)
  {
    if |types| > 0 {
      NonDefaultLength(types[1..]);
    }
  }

  /** Which default configured types the baseline covers: only the container type. */
  lemma DefaultConfigurationCoverage()
    ensures var d := Config.DefaultEnrichVmDataForTargetTypes;
            && d[1] in DefaultEnrichmentTargetTypes
            && d[0] !in DefaultEnrichmentTargetTypes && d[2] !in DefaultEnrichmentTargetTypes
            && d[3] !in DefaultEnrichmentTargetTypes && d[4] !in DefaultEnrichmentTargetTypes
            && d[5] !in DefaultEnrichmentTargetTypes
  {
    assert |HostType| == 33 && |KubernetesNodeType| == 50 && |HostWindowsType| == 41 && |ContainerType| == 43;
  }

  /** The other five default configured types, in order, each get a rule. */
  lemma DefaultConfigurationNonDefault()
    ensures var d := Config.DefaultEnrichVmDataForTargetTypes;
            NonDefault(d) == [d[0], d[2], d[3], d[4], d[5]]
  {
    DefaultConfigurationCoverage();
    SkipSecond(Config.DefaultEnrichVmDataForTargetTypes);
  }

  /** Filtering six types of which exactly the second is covered. */
  lemma SkipSecond(d: seq<string>)
    requires |d| == 6 && d[1] in DefaultEnrichmentTargetTypes
    requires forall i :: 0 <= i < 6 && i != 1 ==> d[i] !in DefaultEnrichmentTargetTypes
    ensures NonDefault(d) == [d[0], d[2], d[3], d[4], d[5]]
  {
    assert NonDefault(d[5..]) == [d[5]] by { assert d[5..][1..] == d[6..]; }
    assert NonDefault(d[4..]) == [d[4], d[5]] by { assert d[4..][1..] == d[5..]; }
    assert NonDefault(d[3..]) == [d[3], d[4], d[5]] by { assert d[3..][1..] == d[4..]; }
    assert NonDefault(d[2..]) == [d[2], d[3], d[4], d[5]] by { assert d[2..][1..] == d[3..]; }
    assert NonDefault(d[1..]) == [d[2], d[3], d[4], d[5]] by { assert d[1..][1..] == d[2..]; }
  }

  /** The default configuration announces nine rules. */
  lemma DefaultConfigurationRules()
    ensures |ExpectedRules(Config.Default().enrichVmDataForTargetTypes)| == 9
  {
    DefaultConfigurationNonDefault();
  }

  /** Baseline ids and configured ids part at the first character after the
      common prefix. */
  lemma BaselineIdsAreNotConfigured()
    ensures forall i, t :: 0 <= i < 4 ==> BaselineRules()[i].id != ConfiguredIdPrefix + t
  {
    forall i, t | 0 <= i < 4
      ensures BaselineRules()[i].id != ConfiguredIdPrefix + t
    {
      var name := if i == 0 then "host" else if i == 1 then "k8s-node"
                  else if i == 2 then "host-windows" else "container";
      assert BaselineRules()[i].id == BaselineIdPrefix + name;
      assert (BaselineIdPrefix + name)[28] == 'g';
      assert (ConfiguredIdPrefix + t)[28] == 'v';
    }
  }

  /** The four baseline ids are pairwise distinct. */
  lemma BaselineIdsDistinct()
    ensures forall i, j :: 0 <= i < j < 4 ==> BaselineRules()[i].id != BaselineRules()[j].id
  {
    var b := BaselineRules();
    assert |b[0].id| == |BaselineIdPrefix| + 4 && |b[1].id| == |BaselineIdPrefix| + 8;
    assert |b[2].id| == |BaselineIdPrefix| + 12 && |b[3].id| == |BaselineIdPrefix| + 9;
  }

  /** Two configured rules share an id exactly when they are for the same type. */
  lemma ConfiguredIdInjective(a: string, b: string)
    ensures VmToXRule(a).id == VmToXRule(b).id <==> a == b
  {
    var p := ConfiguredIdPrefix;
    if VmToXRule(a).id == VmToXRule(b).id {
      assert (p + a)[|p|..] == a;
      assert (p + b)[|p|..] == b;
    }
  }

  /** The rule ids are pairwise distinct exactly when the configuration names
      no type outside the defaults twice. */
  lemma RuleIdsDistinct(configured: seq<string>)
    ensures var rules := ExpectedRules(configured);
            var types := NonDefault(configured);
            (forall i, j :: 0 <= i < j < |rules| ==> rules[i].id != rules[j].id)
            <==> NoDuplicates(types)
  {
    var rules := ExpectedRules(configured);
    var types := NonDefault(configured);
    if NoDuplicates(types) {
      DistinctTypesDistinctIds(configured);
    } else {
      var i, j :| 0 <= i < j < |types| && types[i] == types[j];
      assert rules[4 + i] == VmToXRule(types[i]) && rules[4 + j] == VmToXRule(types[j]);
    }
  }

  lemma DistinctTypesDistinctIds(configured: seq<string>)
    requires NoDuplicates(NonDefault(configured))
    ensures var rules := ExpectedRules(configured);
            forall i, j :: 0 <= i < j < |rules| ==> rules[i].id != rules[j].id
  {
    var rules := ExpectedRules(configured);
    var types := NonDefault(configured);
    var base := BaselineRules();
    BaselineIdsDistinct();
    BaselineIdsAreNotConfigured();
    forall i, j | 0 <= i < j < |rules|
      ensures rules[i].id != rules[j].id
    {
      if j < 4 {
        assert rules[i] == base[i] && rules[j] == base[j];
      } else if i < 4 {
        assert rules[i] == base[i] && rules[j] == VmToXRule(types[j - 4]);
      } else {
        assert rules[i] == VmToXRule(types[i - 4]) && rules[j] == VmToXRule(types[j - 4]);
        ConfiguredIdInjective(types[i - 4], types[j - 4]);
      }
    }
  }

  /** Each default target type is the destination of exactly one rule: the
      baseline rule at its own position. */
  lemma DefaultTypesCoveredOnce(configured: seq<string>, k: nat)
    requires k < 4
    ensures var rules := ExpectedRules(configured);
            && rules[k].dest.targetType == DefaultEnrichmentTargetTypes[k]
            && forall i :: 0 <= i < |rules| && rules[i].dest.targetType == DefaultEnrichmentTargetTypes[k] ==> i == k
  {
    ConfiguredRulesShape(configured);
  }

  /** Every rule after the baseline is for a configured type outside the
      defaults, and copies only the zone and the project. */
  lemma ConfiguredRulesShape(configured: seq<string>)
    ensures var rules := ExpectedRules(configured);
            forall i :: 4 <= i < |rules| ==>
              && rules[i].dest.targetType in configured
              && rules[i].dest.targetType !in DefaultEnrichmentTargetTypes
              && rules[i].id == ConfiguredIdPrefix + rules[i].dest.targetType
              && rules[i].attributes == LocationAttributes
  {
    var rules := ExpectedRules(configured);
    var types := NonDefault(configured);
    NonDefaultMembers(configured);
    forall i | 4 <= i < |rules|
      ensures rules[i].dest.targetType in configured && rules[i].dest.targetType !in DefaultEnrichmentTargetTypes
    {
      assert rules[i] == VmToXRule(types[i - 4]);
      assert types[i - 4] in types;
    }
  }
}
