/** The discovery test's instance, carried through the model: one VM with every
    field set, two labels, two tags and the cluster metadata, with the first
    label's attribute excluded. */
module Scenarios {
  import opened Wrappers
  import opened Strings
  import opened Targets
  import opened Discovery

  const TestProject: string := "p_extension_gcp"
  const TestExcludes: seq<string> := ["gcp-vm.label.tag1"]

  /** The two label keys lower to themselves and to different attributes. */
  lemma TestLabelKeys()
    ensures Lower("tag1") == "tag1" && Lower("tag2") == "tag2"
    ensures LabelKey("tag1") == "gcp-vm.label.tag1"
  {
    assert Lower("tag1") == "tag1";
    assert Lower("tag2") == "tag2";
  }

  /** The test instance's id, name and zone URL give the target id, its
      label and the zone attribute. */
  lemma ScenarioIdentity(inst: Instance, order: seq<string>)
    requires inst.id == Some(42) && inst.name == Some("myVm") && inst.zone == Some("/asd/us-east1-a")
    requires EnumeratesKeys(order, inst.labels)
    ensures var t := InstanceToTarget(TestProject, inst, order);
            && t.id == "42"
            && t.displayLabel == "myVm"
            && t.attributes[KeyName(Zone)] == ["us-east1-a"]
  {
    assert NatToDecimal(42) == "42";
    ZoneOfTestUrl();
  }

  /** The test instance's two tags are joined into one value. */
  lemma ScenarioTags(inst: Instance, order: seq<string>)
    requires inst.id.Some? && inst.tags == Some(["Tags1", "Tags2"])
    requires EnumeratesKeys(order, inst.labels)
    ensures InstanceToTarget(TestProject, inst, order).attributes[TagsKey] == ["Tags1,Tags2"]
  {
    assert Join(["Tags1", "Tags2"], ',') == "Tags1,Tags2";
  }

  /** Each of the test instance's labels keeps its own value. */
  lemma ScenarioLabels(inst: Instance, order: seq<string>)
    requires inst.id.Some? && inst.labels == map["tag1" := "Value1", "tag2" := "Value2"]
    requires EnumeratesKeys(order, inst.labels)
    ensures var a := InstanceToTarget(TestProject, inst, order).attributes;
            && LabelKey("tag1") in a
            && LabelKey("tag2") in a && a[LabelKey("tag2")] == ["Value2"]
  {
    TestLabelKeys();
    InstanceToTargetLabel(TestProject, inst, order, "tag1");
    InstanceToTargetLabel(TestProject, inst, order, "tag2");
  }

  /** Excluding the first label's attribute removes that label and keeps
      every other attribute as it was. */
  lemma ScenarioExclusion(t: Target)
    requires LabelKey("tag2") in t.attributes && TagsKey in t.attributes && KeyName(Zone) in t.attributes
    ensures var e := ExcludeAttributes(t, TestExcludes).attributes;
            && "gcp-vm.label.tag1" !in e
            && LabelKey("tag2") in e && e[LabelKey("tag2")] == t.attributes[LabelKey("tag2")]
            && TagsKey in e && e[TagsKey] == t.attributes[TagsKey]
            && KeyName(Zone) in e && e[KeyName(Zone)] == t.attributes[KeyName(Zone)]
  {
    TestLabelKeys();
    assert LabelKey("tag2") != "gcp-vm.label.tag1" by {
      assert LabelKey("tag2")[|LabelKey("tag2")| - 1] == '2';
    }
    assert TagsKey != "gcp-vm.label.tag1" by { LabelKeysAvoidTags(); }
  }

  /** The test's batch of one instance, with the first label excluded: one
      target, with the expected id, label, zone, tags and surviving label,
      and without the excluded label, whatever order the labels are visited
      in. */
  lemma DiscoveryTestScenario(inst: Instance, order: seq<string>)
    requires inst.id == Some(42) && inst.name == Some("myVm") && inst.zone == Some("/asd/us-east1-a")
    requires inst.tags == Some(["Tags1", "Tags2"])
    requires inst.labels == map["tag1" := "Value1", "tag2" := "Value2"]
    requires EnumeratesKeys(order, inst.labels)
    ensures Convertible([inst], [order])
    ensures var targets := ApplyAttributeExcludes(ConvertAll(TestProject, [inst], [order]), TestExcludes);
            && |targets| == 1
            && targets[0].id == "42"
            && targets[0].displayLabel == "myVm"
            && KeyName(Zone) in targets[0].attributes && targets[0].attributes[KeyName(Zone)] == ["us-east1-a"]
            && TagsKey in targets[0].attributes && targets[0].attributes[TagsKey] == ["Tags1,Tags2"]
            && LabelKey("tag2") in targets[0].attributes && targets[0].attributes[LabelKey("tag2")] == ["Value2"]
            && "gcp-vm.label.tag1" !in targets[0].attributes
  {
    var t := InstanceToTarget(TestProject, inst, order);
    ScenarioIdentity(inst, order);
    ScenarioTags(inst, order);
    ScenarioLabels(inst, order);
    ScenarioExclusion(t);
    ConvertAllAt(TestProject, [inst], [order], 0);
    var targets := ApplyAttributeExcludes(ConvertAll(TestProject, [inst], [order]), TestExcludes);
    assert targets[0] == ExcludeAttributes(t, TestExcludes);
  }

  /** The exclusion never touches a fixed attribute: the excluded key lies in
      the label namespace. */
  lemma ScenarioFixedKept(t: Target)
    ensures var e := ExcludeAttributes(t, TestExcludes).attributes;
            forall k :: KeyName(k) in t.attributes ==> KeyName(k) in e && e[KeyName(k)] == t.attributes[KeyName(k)]
  {
    TestLabelKeys();
    LabelKeyIsFresh("tag1");
    FixedKeysOutsideLabels();
  }

  /** The fixed attribute values the test's plain instance fields give. */
  lemma ScenarioFieldValues(inst: Instance)
    requires inst.id.Some? && inst.hostname == Some("asd") && inst.description == Some("description")
    requires inst.cpuPlatform == Some("intel") && inst.machineType == Some("fat")
    requires inst.sourceMachineImage == Some("18.04.5 LTS")
    requires inst.status == Some("top") && inst.statusMessage == Some("top status")
    requires inst.zone == Some("/asd/us-east1-a")
    ensures FixedValue(VmHostname, TestProject, inst) == "asd"
    ensures FixedValue(VmDescription, TestProject, inst) == "description"
    ensures FixedValue(VmCpuPlatform, TestProject, inst) == "intel"
    ensures FixedValue(VmMachineType, TestProject, inst) == "fat"
    ensures FixedValue(VmSourceMachineImage, TestProject, inst) == "18.04.5 LTS"
    ensures FixedValue(VmStatus, TestProject, inst) == "top"
    ensures FixedValue(VmStatusMessage, TestProject, inst) == "top status"
    ensures FixedValue(ZoneUrl, TestProject, inst) == "/asd/us-east1-a"
    ensures FixedValue(ProjectId, TestProject, inst) == "p_extension_gcp"
  {
  }

  /** The cluster values the test's metadata gives. */
  lemma ScenarioClusterValues(inst: Instance)
    requires inst.id.Some?
    requires inst.metadata == Some([MetadataItem(Some("cluster-name"), Some("my_cluster")),
                                    MetadataItem(Some("cluster-location"), Some("us-east1-a"))])
    ensures FixedValue(ClusterName, TestProject, inst) == "my_cluster"
    ensures FixedValue(ClusterLocation, TestProject, inst) == "us-east1-a"
  {
    ScenarioClusterMetadata(inst.metadata.value);
  }

  /** The test's metadata list: the cluster name is the first item's value and
      the cluster location the second's. */
  lemma ScenarioClusterMetadata(items: seq<MetadataItem>)
    requires items == [MetadataItem(Some("cluster-name"), Some("my_cluster")),
                       MetadataItem(Some("cluster-location"), Some("us-east1-a"))]
    ensures FirstMetadataValue(items, "cluster-name") == "my_cluster"
    ensures FirstMetadataValue(items, "cluster-location") == "us-east1-a"
  {
    assert GetStringValue(items[0].key) == "cluster-name";
    assert GetStringValue(items[1].key) == "cluster-location";
    assert |"cluster-name"| != |"cluster-location"|;
    assert FirstMetadataValue(items[1..], "cluster-location") == "us-east1-a";
  }

  /** In the test's batch, every fixed attribute survives the exclusion with
      the value computed for it. */
  lemma ScenarioBatchFixed(inst: Instance, order: seq<string>)
    requires inst.id.Some? && EnumeratesKeys(order, inst.labels)
    ensures Convertible([inst], [order])
    ensures var targets := ApplyAttributeExcludes(ConvertAll(TestProject, [inst], [order]), TestExcludes);
            && |targets| == 1
            && forall k :: KeyName(k) in targets[0].attributes
                           && targets[0].attributes[KeyName(k)] == [FixedValue(k, TestProject, inst)]
  {
    var t := InstanceToTarget(TestProject, inst, order);
    ScenarioFixedKept(t);
    ConvertAllAt(TestProject, [inst], [order], 0);
    var targets := ApplyAttributeExcludes(ConvertAll(TestProject, [inst], [order]), TestExcludes);
    assert targets[0] == ExcludeAttributes(t, TestExcludes);
  }

  /** The test's remaining fixed attributes: the hostname, the descriptive
      fields, the zone URL (under `gcp.zone-url`, where the code writes it),
      the configured project and the two cluster values from the metadata. */
  lemma DiscoveryTestFixedAttributes(inst: Instance, order: seq<string>)
    requires inst.id.Some? && inst.hostname == Some("asd") && inst.description == Some("description")
    requires inst.cpuPlatform == Some("intel") && inst.machineType == Some("fat")
    requires inst.sourceMachineImage == Some("18.04.5 LTS")
    requires inst.status == Some("top") && inst.statusMessage == Some("top status")
    requires inst.zone == Some("/asd/us-east1-a")
    requires inst.metadata == Some([MetadataItem(Some("cluster-name"), Some("my_cluster")),
                                    MetadataItem(Some("cluster-location"), Some("us-east1-a"))])
    requires EnumeratesKeys(order, inst.labels)
    ensures Convertible([inst], [order])
    ensures var targets := ApplyAttributeExcludes(ConvertAll(TestProject, [inst], [order]), TestExcludes);
            var a := targets[0].attributes;
            && |targets| == 1
            && (forall k :: KeyName(k) in a)
            && a[KeyName(VmHostname)] == ["asd"]
            && a[KeyName(VmDescription)] == ["description"]
            && a[KeyName(VmCpuPlatform)] == ["intel"]
            && a[KeyName(VmMachineType)] == ["fat"]
            && a[KeyName(VmSourceMachineImage)] == ["18.04.5 LTS"]
            && a[KeyName(VmStatus)] == ["top"]
            && a[KeyName(VmStatusMessage)] == ["top status"]
            && a[KeyName(ZoneUrl)] == ["/asd/us-east1-a"]
            && a[KeyName(ProjectId)] == ["p_extension_gcp"]
            && a[KeyName(ClusterName)] == ["my_cluster"]
            && a[KeyName(ClusterLocation)] == ["us-east1-a"]
  {
    ScenarioFieldValues(inst);
    ScenarioClusterValues(inst);
    ScenarioBatchFixed(inst, order);
  }
}
