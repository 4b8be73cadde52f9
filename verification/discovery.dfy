/** VM discovery: paging through the compute API's aggregated instance list
    and normalising each instance into a discovery target. */
module Discovery {
  import opened Wrappers
  import opened Strings
  import opened Targets
  import Config

  /** Go's `uint64`, the type of a compute instance id. */
  type UInt64 = x: nat | x < 0x1_0000_0000_0000_0000

  /** One entry of an instance's metadata list; both halves may be absent. */
  datatype MetadataItem = MetadataItem(key: Option<string>, value: Option<string>)

  /** The fields of a compute instance the discovery reads. Every field may be
      absent; `tags` is `None` when the instance has no tag record at all. */
  datatype Instance = Instance(
    name: Option<string>,
    id: Option<UInt64>,
    hostname: Option<string>,
    description: Option<string>,
    cpuPlatform: Option<string>,
    machineType: Option<string>,
    sourceMachineImage: Option<string>,
    status: Option<string>,
    statusMessage: Option<string>,
    zone: Option<string>,
    tags: Option<seq<string>>,
    labels: map<string, string>,
    metadata: Option<seq<MetadataItem>>)

  // ---------------------------------------------------------------------------
  // Paginated collection
  // ---------------------------------------------------------------------------

  /** What one call of the aggregated-list iterator's `Next` yields: a zone's
      instances, the end-of-iteration sentinel, or an error. */
  datatype PageResult = Pair(key: string, instances: seq<Instance>) | Done | Err(message: string)

  const ProjectIdNotSet: string := "project id is not set"

  /** Every result of the run is a `Pair`. */
  predicate AllPairs(pages: seq<PageResult>) {
    forall i :: 0 <= i < |pages| ==> pages[i].Pair?
  }

  /** The number of leading `Pair` results, i.e. the position of the first
      `Done` or `Err` (or the length when there is none). */
  function StopIndex(pages: seq<PageResult>): (n: nat)
    ensures n <= |pages|
    ensures AllPairs(pages[..n])
    ensures n < |pages| ==> !pages[n].Pair?
  {
    if |pages| == 0 || !pages[0].Pair? then 0 else 1 + StopIndex(pages[1..])
  }

  /** The instances of a run of `Pair` results, in order. */
  function Concat(pages: seq<PageResult>): seq<Instance>
    requires AllPairs(pages)
  {
    if |pages| == 0 then [] else pages[0].instances + Concat(pages[1..])
  }

  /** Drains the iterator, appending each pair's instances to `acc`; stops at
      `Done` (or at the end of the sequence) with everything gathered, and at the
      first `Err` with that error and nothing else. */
  function CollectPages(pages: seq<PageResult>, acc: seq<Instance>): (r: Result<seq<Instance>, string>)
    ensures var n := StopIndex(pages);
            if n < |pages| && pages[n].Err? then r == Failure(pages[n].message)
            else r == Success(acc + Concat(pages[..n]))
  {
    if |pages| == 0 then assert acc + Concat(pages[..0]) == acc; Success(acc)
    else match pages[0]
      case Done => assert acc + Concat(pages[..0]) == acc; Success(acc)
      case Err(m) => Failure(m)
      case Pair(_, xs) =>
        var r := CollectPages(pages[1..], acc + xs);
        var n := StopIndex(pages);
        assert pages[..n][1..] == pages[1..][..n - 1];
        assert Concat(pages[..n]) == xs + Concat(pages[1..][..n - 1]);
        assert (acc + xs) + Concat(pages[1..][..n - 1]) == acc + Concat(pages[..n]);
        r
  }

  /** All instances of the project, or an error. An empty project id fails
      before the iterator is touched. */
  function GetAllVirtualMachinesInstances(projectId: string, pages: seq<PageResult>): (r: Result<seq<Instance>, string>)
    ensures projectId == "" ==> r == Failure(ProjectIdNotSet)
    ensures projectId != "" ==>
              var n := StopIndex(pages);
              if n < |pages| && pages[n].Err? then r == Failure(pages[n].message)
              else r == Success(Concat(pages[..n]))
  {
    if projectId == "" then Failure(ProjectIdNotSet)
    else
      var r := CollectPages(pages, []);
      assert [] + Concat(pages[..StopIndex(pages)]) == Concat(pages[..StopIndex(pages)]);
      r
  }

  /** An instance is collected from a run of pairs exactly when some pair of
      the run holds it. */
  lemma {:induction false} ConcatMembers(pages: seq<PageResult>)
    requires AllPairs(pages)
    ensures forall x :: x in Concat(pages) <==> exists i :: 0 <= i < |pages| && x in pages[i].instances
  {
    if |pages| > 0 {
      ConcatMembers(pages[1..]);
      forall x | x in Concat(pages)
        ensures exists i :: 0 <= i < |pages| && x in pages[i].instances
      {
        if x !in pages[0].instances {
          assert x in Concat(pages[1..]);
          var i :| 0 <= i < |pages[1..]| && x in pages[1..][i].instances;
          assert x in pages[i + 1].instances;
        }
      }
      forall x, i | 0 <= i < |pages| && x in pages[i].instances
        ensures x in Concat(pages)
      {
        if i > 0 {
          assert x in pages[1..][i - 1].instances;
        }
      }
    }
  }

  /** The first result that is not a `Pair` is where the iterator stops. */
  lemma {:induction false} StopIndexAt(pages: seq<PageResult>, n: nat)
    requires n < |pages| && !pages[n].Pair?
    requires AllPairs(pages[..n])
    ensures StopIndex(pages) == n
  {
    if n > 0 {
      assert pages[0] == pages[..n][0];
      assert pages[1..][..n - 1] == pages[..n][1..];
      StopIndexAt(pages[1..], n - 1);
    }
  }

  /** Sequences that agree up to and including position `n` agree before it
      and at it. */
  lemma PrefixAgrees(a: seq<PageResult>, b: seq<PageResult>, n: nat)
    requires n < |a| && n < |b|
    requires a[..n + 1] == b[..n + 1]
    ensures a[..n] == b[..n] && a[n] == b[n]
  {
    assert a[n] == a[..n + 1][n];
    assert a[..n] == a[..n + 1][..n];
    assert b[..n] == b[..n + 1][..n];
  }

  /** Two iterators that stop at the same place after the same results give
      the same outcome. */
  lemma SameStopSameOutcome(projectId: string, a: seq<PageResult>, b: seq<PageResult>, n: nat)
    requires StopIndex(a) == n == StopIndex(b) && n < |a| && n < |b|
    requires a[..n] == b[..n] && a[n] == b[n]
    ensures GetAllVirtualMachinesInstances(projectId, a) == GetAllVirtualMachinesInstances(projectId, b)
  {
  }

  /** The outcome of draining the iterator depends only on the results up to
      and including the first `Done` or `Err`: whatever would follow is never
      looked at. */
  lemma PagesAfterStopIgnored(projectId: string, pages: seq<PageResult>, other: seq<PageResult>, n: nat)
    requires n == StopIndex(pages) && n < |pages| && n < |other|
    requires other[..n + 1] == pages[..n + 1]
    ensures GetAllVirtualMachinesInstances(projectId, other)
         == GetAllVirtualMachinesInstances(projectId, pages)
  {
    PrefixAgrees(other, pages, n);
    StopIndexAt(other, n);
    SameStopSameOutcome(projectId, other, pages, n);
  }

  // ---------------------------------------------------------------------------
  // Per-instance normalisation
  // ---------------------------------------------------------------------------

  /** Go's dereference-or-empty for an optional string. */
  function GetStringValue(val: Option<string>): (r: string)
    ensures val.Some? ==> r == val.value
    ensures val.None? ==> r == ""
  {
    val.GetOr("")
  }

  /** The hostname, falling back to the name, falling back to "". */
  function GetHostname(inst: Instance): (r: string)
    ensures inst.hostname.Some? ==> r == inst.hostname.value
    ensures inst.hostname.None? && inst.name.Some? ==> r == inst.name.value
    ensures inst.hostname.None? && inst.name.None? ==> r == ""
  {
    if inst.hostname.Some? then inst.hostname.value else GetStringValue(inst.name)
  }

  /** `zone` is what the zone URL names: when some '/' follows the first
      character, the slash-free text after the last '/'; otherwise "". */
  ghost predicate IsZoneOf(url: string, zone: string) {
    && '/' !in zone
    && (zone != "" ==> |zone| < |url| - 1 && url[|url| - |zone| - 1] == '/')
    && ((exists i :: 0 < i < |url| && url[i] == '/') ==>
          |zone| < |url| && zone == url[|url| - |zone|..] && url[|url| - |zone| - 1] == '/')
    && ((forall i :: 0 < i < |url| ==> url[i] != '/') ==> zone == "")
  }

  /** The zone name taken from the instance's zone URL; the check on the last
      '/' is `> 0`, so a URL whose only '/' is its first character gives "". */
  function GetZone(inst: Instance): string {
    ZoneOfUrl(GetStringValue(inst.zone))
  }

  /** The zone part of a zone URL. */
  function ZoneOfUrl(url: string): string {
    var lastIndex := LastIndexOf(url, '/');
    if lastIndex > 0 then url[lastIndex + 1..] else ""
  }

  /** The zone taken from a URL is what the URL names. */
  lemma ZoneOfUrlIsZoneOf(url: string)
    ensures IsZoneOf(url, ZoneOfUrl(url))
  {
  }

  /** The discovery test's zone URL gives its zone. */
  lemma ZoneOfTestUrl()
    ensures ZoneOfUrl("/asd/us-east1-a") == "us-east1-a"
  {
    var url := "/asd/us-east1-a";
    var r := LastIndexOf(url, '/');
    assert url[4] == '/';
    assert forall j :: 4 < j < |url| ==> url[j] != '/';
    assert r == 4;
    assert url[5..] == "us-east1-a";
  }

  /** A URL whose only '/' is its first character gives "". */
  lemma ZoneOfLeadingSlashOnly()
    ensures ZoneOfUrl("/us-east1-a") == ""
  {
    var url := "/us-east1-a";
    assert forall j :: 0 < j < |url| ==> url[j] != '/';
  }

  /** `value` is the value of the first item whose key is `key`, or "" when no
      item has that key (an absent key reads as ""). */
  ghost predicate IsFirstMatch(items: seq<MetadataItem>, key: string, value: string) {
    && ((forall i :: 0 <= i < |items| ==> GetStringValue(items[i].key) != key) ==> value == "")
    && (forall i :: 0 <= i < |items| && GetStringValue(items[i].key) == key
                    && (forall j :: 0 <= j < i ==> GetStringValue(items[j].key) != key)
                    ==> value == GetStringValue(items[i].value))
  }

  /** The value of the first metadata item whose key is `key`. */
  function FirstMetadataValue(items: seq<MetadataItem>, key: string): (r: string)
    ensures IsFirstMatch(items, key, r)
  {
    if |items| == 0 then ""
    else if GetStringValue(items[0].key) == key then GetStringValue(items[0].value)
    else
      var r := FirstMetadataValue(items[1..], key);
      assert forall i :: 1 <= i < |items| ==> items[i] == items[1..][i - 1];
      r
  }

  /** The value stored under `key` in the instance metadata, "" when there is no
      metadata or no item with that key. */
  function GetMetadata(metadata: Option<seq<MetadataItem>>, key: string): (r: string)
    ensures metadata.None? ==> r == ""
    ensures metadata.Some? ==> r == FirstMetadataValue(metadata.value, key)
  {
    if metadata.Some? then FirstMetadataValue(metadata.value, key) else ""
  }

  const LabelPrefix: string := "gcp-vm.label."
  const TagsKey: string := "gcp-vm.tags"

  /** The fourteen attributes every discovered VM carries. */
  datatype FixedKey =
    | VmName | VmId | VmHostname | VmDescription | VmCpuPlatform | VmMachineType
    | VmSourceMachineImage | VmStatus | VmStatusMessage | ZoneUrl | Zone | ProjectId
    | ClusterName | ClusterLocation

  /** The attribute name a fixed key is written under. */
  function KeyName(k: FixedKey): string {
    match k
    case VmName => "gcp-vm.name"
    case VmId => "gcp-vm.id"
    case VmHostname => "gcp-vm.hostname"
    case VmDescription => "gcp-vm.description"
    case VmCpuPlatform => "gcp-vm.cpu-platform"
    case VmMachineType => "gcp-vm.machine-type"
    case VmSourceMachineImage => "gcp-vm.source-machine-image"
    case VmStatus => "gcp-vm.status"
    case VmStatusMessage => "gcp-vm.status-message"
    case ZoneUrl => "gcp.zone-url"
    case Zone => "gcp.zone"
    case ProjectId => "gcp.project.id"
    case ClusterName => "gcp-kubernetes-engine.cluster.name"
    case ClusterLocation => "gcp-kubernetes-engine.cluster.location"
  }

  /** Whether an attribute name is one of the fixed attributes. */
  ghost predicate IsFixedKey(key: string) {
    exists k :: KeyName(k) == key
  }

  /** No two fixed keys share an attribute name. */
  lemma KeyNameInjective()
    ensures forall a, b :: KeyName(a) == KeyName(b) ==> a == b
  {
    forall a, b | KeyName(a) == KeyName(b)
      ensures a == b
    {
      if |KeyName(a)| == 19 {
        assert KeyName(a)[7] == KeyName(b)[7];
      }
    }
  }

  /** Whether an attribute name lies in the label namespace. */
  predicate IsLabelKey(key: string) {
    |key| >= |LabelPrefix| && key[..|LabelPrefix|] == LabelPrefix
  }

  /** No fixed attribute lies in the label namespace or is the tags attribute. */
  lemma FixedKeysOutsideLabels()
    ensures forall k :: !IsLabelKey(KeyName(k)) && KeyName(k) != TagsKey
    ensures !IsLabelKey(TagsKey)
  {
    forall k
      ensures !IsLabelKey(KeyName(k)) && KeyName(k) != TagsKey
    {
      var name := KeyName(k);
      assert name[3] != LabelPrefix[3] || name[7] != LabelPrefix[7];
      assert |name| != |TagsKey| || name[7] != TagsKey[7];
    }
    assert TagsKey[7] != LabelPrefix[7];
  }

  /** The attribute a label key becomes. */
  function LabelKey(k: string): string {
    LabelPrefix + Lower(k)
  }

  /** `order` lists exactly the label keys: the order in which Go's `range`
      happens to visit the label map. */
  predicate EnumeratesKeys(order: seq<string>, labels: map<string, string>) {
    && (forall k :: k in order ==> k in labels)
    && (forall k :: k in labels ==> k in order)
  }

  /** Two label attribute names agree exactly when their lowered keys do. */
  lemma LabelKeyInjective(a: string, b: string)
    ensures LabelKey(a) == LabelKey(b) <==> Lower(a) == Lower(b)
  {
    if LabelKey(a) == LabelKey(b) {
      assert Lower(a) == LabelKey(a)[|LabelPrefix|..];
      assert Lower(b) == LabelKey(b)[|LabelPrefix|..];
    }
  }

  /** A label attribute never collides with a fixed attribute or with the tags. */
  lemma LabelKeyIsFresh(k: string)
    ensures IsLabelKey(LabelKey(k))
    ensures LabelKey(k) != TagsKey
  {
    assert LabelKey(k)[..|LabelPrefix|] == LabelPrefix;
    FixedKeysOutsideLabels();
  }

  /** No label attribute is the tags attribute. */
  lemma LabelKeysAvoidTags()
    ensures forall k :: LabelKey(k) != TagsKey
  {
    forall k {
      LabelKeyIsFresh(k);
    }
  }

  /** Writes the label attributes into `m` in visiting order, so that the last
      label with a given lowered key wins. `m` holds no label attribute yet,
      and everything already in it stays as it is. */
  function WriteLabels(m: Attributes, labels: map<string, string>, order: seq<string>): (r: Attributes)
    requires forall key {:trigger IsLabelKey(key)} :: IsLabelKey(key) ==> key !in m
    requires forall k :: k in order ==> k in labels
    ensures forall key :: key in m ==> key in r && r[key] == m[key]
    ensures forall k :: k in order ==> LabelKey(k) in r
  {
    if |order| == 0 then m
    else
      var last := order[|order| - 1];
      LabelKeyIsFresh(last);
      var r := WriteLabels(m, labels, order[..|order| - 1])[LabelKey(last) := [labels[last]]];
      assert forall k :: k in order ==> k == last || k in order[..|order| - 1];
      r
  }

  /** Every attribute `WriteLabels` adds belongs to a label of `order` and
      holds that label's value. */
  lemma {:induction false} WriteLabelsOrigin(m: Attributes, labels: map<string, string>, order: seq<string>, key: string)
    requires forall key {:trigger IsLabelKey(key)} :: IsLabelKey(key) ==> key !in m
    requires forall k :: k in order ==> k in labels
    ensures key in WriteLabels(m, labels, order) && key !in m ==>
              exists k :: k in order && LabelKey(k) == key && WriteLabels(m, labels, order)[key] == [labels[k]]
  {
    if |order| == 0 || key !in WriteLabels(m, labels, order) || key in m {
      return;
    }
    var n := |order| - 1;
    var last := order[n];
    var prefix := order[..n];
    if key == LabelKey(last) {
      assert last in order;
    } else {
      WriteLabelsOrigin(m, labels, prefix, key);
      var k :| k in prefix && LabelKey(k) == key && WriteLabels(m, labels, prefix)[key] == [labels[k]];
      assert k in order;
    }
  }

  /** When no other label lowers to the same key, a label's attribute holds
      exactly its own value. */
  lemma WriteLabelsUnique(m: Attributes, labels: map<string, string>, order: seq<string>, k: string)
    requires forall key {:trigger IsLabelKey(key)} :: IsLabelKey(key) ==> key !in m
    requires forall k :: k in order ==> k in labels
    requires k in order
    requires forall k' :: k' in labels && Lower(k') == Lower(k) ==> k' == k
    ensures LabelKey(k) in WriteLabels(m, labels, order)
    ensures WriteLabels(m, labels, order)[LabelKey(k)] == [labels[k]]
  {
    LabelKeyIsFresh(k);
    WriteLabelsOrigin(m, labels, order, LabelKey(k));
    var k' :| k' in order && LabelKey(k') == LabelKey(k) && WriteLabels(m, labels, order)[LabelKey(k)] == [labels[k']];
    LabelKeyInjective(k', k);
  }

  /** The value written under a fixed key: the instance field, "" when it is
      absent, or a value computed from the instance or the configuration. */
  function FixedValue(k: FixedKey, projectId: string, inst: Instance): string
    requires inst.id.Some?
  {
    match k
    case VmName => GetStringValue(inst.name)
    case VmId => NatToDecimal(inst.id.value)
    case VmHostname => GetHostname(inst)
    case VmDescription => GetStringValue(inst.description)
    case VmCpuPlatform => GetStringValue(inst.cpuPlatform)
    case VmMachineType => GetStringValue(inst.machineType)
    case VmSourceMachineImage => GetStringValue(inst.sourceMachineImage)
    case VmStatus => GetStringValue(inst.status)
    case VmStatusMessage => GetStringValue(inst.statusMessage)
    case ZoneUrl => GetStringValue(inst.zone)
    case Zone => GetZone(inst)
    case ProjectId => projectId
    case ClusterName => GetMetadata(inst.metadata, "cluster-name")
    case ClusterLocation => GetMetadata(inst.metadata, "cluster-location")
  }

  /** The fixed keys in the order the attributes are written. */
  const AllFixedKeys: seq<FixedKey> := [
    VmName, VmId, VmHostname, VmDescription, VmCpuPlatform, VmMachineType,
    VmSourceMachineImage, VmStatus, VmStatusMessage, ZoneUrl, Zone, ProjectId,
    ClusterName, ClusterLocation
  ]

  /** Every fixed key is written. */
  lemma AllFixedKeysComplete()
    ensures forall k :: k in AllFixedKeys
  {
    forall k
      ensures k in AllFixedKeys
    {
      var i := match k
        case VmName => 0 case VmId => 1 case VmHostname => 2 case VmDescription => 3
        case VmCpuPlatform => 4 case VmMachineType => 5 case VmSourceMachineImage => 6
        case VmStatus => 7 case VmStatusMessage => 8 case ZoneUrl => 9 case Zone => 10
        case ProjectId => 11 case ClusterName => 12 case ClusterLocation => 13;
      assert AllFixedKeys[i] == k;
    }
  }

  /** Writes the attributes of `keys`, one value each, in order. No label
      attribute and no tags attribute is among them. */
  function WriteFixed(keys: seq<FixedKey>, projectId: string, inst: Instance): (m: Attributes)
    requires inst.id.Some?
    ensures forall k :: k in keys ==> KeyName(k) in m && m[KeyName(k)] == [FixedValue(k, projectId, inst)]
    ensures forall key {:trigger IsLabelKey(key)} :: IsLabelKey(key) ==> key !in m
    ensures TagsKey !in m
  {
    if |keys| == 0 then map[]
    else
      var last := keys[|keys| - 1];
      var m := WriteFixed(keys[..|keys| - 1], projectId, inst)[KeyName(last) := [FixedValue(last, projectId, inst)]];
      KeyNameInjective();
      FixedKeysOutsideLabels();
      assert forall k :: k in keys ==> k == last || k in keys[..|keys| - 1];
      m
  }

  /** Nothing but the attributes of `keys` is written. */
  lemma {:induction false} WriteFixedKeys(keys: seq<FixedKey>, projectId: string, inst: Instance, key: string)
    requires inst.id.Some?
    requires key in WriteFixed(keys, projectId, inst)
    ensures IsFixedKey(key)
  {
    var n := |keys| - 1;
    if key != KeyName(keys[n]) {
      WriteFixedKeys(keys[..n], projectId, inst, key);
    }
  }

  /** Converts one instance into a target. The instance id is required: Go
      dereferences it unconditionally. */
  function InstanceToTarget(projectId: string, inst: Instance, order: seq<string>): (t: Target)
    requires inst.id.Some?
    requires EnumeratesKeys(order, inst.labels)
    ensures t.id == NatToDecimal(inst.id.value)
    ensures t.targetType == Config.TargetIdVm
    ensures t.displayLabel == GetStringValue(inst.name)
    ensures forall k :: KeyName(k) in t.attributes
                        && t.attributes[KeyName(k)] == [FixedValue(k, projectId, inst)]
    ensures TagsKey in t.attributes <==> inst.tags.Some?
    ensures inst.tags.Some? ==> t.attributes[TagsKey] == [Join(inst.tags.value, ',')]
  {
    var id := NatToDecimal(inst.id.value);
    var fixed := WriteFixed(AllFixedKeys, projectId, inst);
    AllFixedKeysComplete();
    var withLabels := WriteLabels(fixed, inst.labels, order);
    assert TagsKey !in withLabels by {
      WriteLabelsOrigin(fixed, inst.labels, order, TagsKey);
      LabelKeysAvoidTags();
    }
    var attributes := if inst.tags.Some? then withLabels[TagsKey := [Join(inst.tags.value, ',')]] else withLabels;
    Target(id, Config.TargetIdVm, GetStringValue(inst.name), attributes)
  }

  /** The target id is the decimal instance id and is also the `gcp-vm.id`
      attribute; the label is the `gcp-vm.name` attribute; `gcp.project.id`
      is the configured project; and the id reads back as the instance id. */
  lemma InstanceToTargetIdentity(projectId: string, inst: Instance, order: seq<string>)
    requires inst.id.Some?
    requires EnumeratesKeys(order, inst.labels)
    ensures var t := InstanceToTarget(projectId, inst, order);
            && t.attributes[KeyName(VmId)] == [t.id]
            && t.attributes[KeyName(VmName)] == [t.displayLabel]
            && t.attributes[KeyName(ProjectId)] == [projectId]
            && IsDigits(t.id) && DecimalToNat(t.id) == inst.id.value
  {
    DecimalRoundTrip(inst.id.value);
  }

  /** One label's attribute in the converted target: present, holding the
      value of a label with the same lowered key, and its own value when no
      other label lowers to that key. */
  lemma InstanceToTargetLabel(projectId: string, inst: Instance, order: seq<string>, k: string)
    requires inst.id.Some?
    requires EnumeratesKeys(order, inst.labels)
    requires k in inst.labels
    ensures var a := InstanceToTarget(projectId, inst, order).attributes;
            && LabelKey(k) in a
            && exists k' :: k' in inst.labels && Lower(k') == Lower(k) && a[LabelKey(k)] == [inst.labels[k']]
    ensures var a := InstanceToTarget(projectId, inst, order).attributes;
            (forall k' :: k' in inst.labels && Lower(k') == Lower(k) ==> k' == k) ==>
              LabelKey(k) in a && a[LabelKey(k)] == [inst.labels[k]]
  {
    var a := InstanceToTarget(projectId, inst, order).attributes;
    var fixed := WriteFixed(AllFixedKeys, projectId, inst);
    var withLabels := WriteLabels(fixed, inst.labels, order);
    LabelKeyIsFresh(k);
    assert LabelKey(k) in withLabels && LabelKey(k) !in fixed;
    assert a[LabelKey(k)] == withLabels[LabelKey(k)];
    WriteLabelsOrigin(fixed, inst.labels, order, LabelKey(k));
    var k' :| k' in order && LabelKey(k') == LabelKey(k) && withLabels[LabelKey(k)] == [inst.labels[k']];
    LabelKeyInjective(k', k);
    if forall k' :: k' in inst.labels && Lower(k') == Lower(k) ==> k' == k {
      WriteLabelsUnique(fixed, inst.labels, order, k);
    }
  }

  /** A tag record with no items and one holding a single empty tag give the
      same `gcp-vm.tags` value, so the joined attribute cannot tell them apart. */
  lemma EmptyTagsLookLikeBlankTag(projectId: string, inst: Instance, order: seq<string>)
    requires inst.id.Some?
    requires EnumeratesKeys(order, inst.labels)
    requires inst.tags == Some([])
    ensures var blank := inst.(tags := Some([""]));
            && InstanceToTarget(projectId, inst, order).attributes[TagsKey] == [""]
            && InstanceToTarget(projectId, blank, order).attributes[TagsKey] == [""]
  {
  }

  /** Nothing but the fixed attributes, the tags and the label attributes is
      written. */
  lemma InstanceToTargetNoOtherKeys(projectId: string, inst: Instance, order: seq<string>)
    requires inst.id.Some?
    requires EnumeratesKeys(order, inst.labels)
    ensures var a := InstanceToTarget(projectId, inst, order).attributes;
            forall key :: key in a ==>
              IsFixedKey(key) || key == TagsKey || exists k :: k in inst.labels && key == LabelKey(k)
  {
    var a := InstanceToTarget(projectId, inst, order).attributes;
    var fixed := WriteFixed(AllFixedKeys, projectId, inst);
    var withLabels := WriteLabels(fixed, inst.labels, order);
    forall key | key in a && key != TagsKey
      ensures IsFixedKey(key) || exists k :: k in inst.labels && key == LabelKey(k)
    {
      if key in fixed {
        WriteFixedKeys(AllFixedKeys, projectId, inst, key);
      } else {
        WriteLabelsOrigin(fixed, inst.labels, order, key);
      }
    }
  }

  // ---------------------------------------------------------------------------
  // Batch conversion
  // ---------------------------------------------------------------------------

  /** Every instance of a batch is convertible: it has an id and its label
      visiting order lists exactly its labels. */
  predicate Convertible(instances: seq<Instance>, orders: seq<seq<string>>) {
    && |orders| == |instances|
    && forall i :: 0 <= i < |instances| ==> instances[i].id.Some? && EnumeratesKeys(orders[i], instances[i].labels)
  }

  /** One target per instance, in input order. */
  function ConvertAll(projectId: string, instances: seq<Instance>, orders: seq<seq<string>>): (r: seq<Target>)
    requires Convertible(instances, orders)
    ensures |r| == |instances|
  {
    if |instances| == 0 then []
    else
      var n := |instances| - 1;
      ConvertAll(projectId, instances[..n], orders[..n]) + [InstanceToTarget(projectId, instances[n], orders[n])]
  }

  /** The `i`th target is the conversion of the `i`th instance. */
  lemma {:induction false} ConvertAllAt(projectId: string, instances: seq<Instance>, orders: seq<seq<string>>, i: nat)
    requires Convertible(instances, orders)
    requires i < |instances|
    ensures ConvertAll(projectId, instances, orders)[i] == InstanceToTarget(projectId, instances[i], orders[i])
  {
    var n := |instances| - 1;
    if i < n {
      assert instances[..n][i] == instances[i] && orders[..n][i] == orders[i];
      ConvertAllAt(projectId, instances[..n], orders[..n], i);
    }
  }

  /** Converts a batch of instances, one target per instance in input order,
      then drops the configured attribute keys. `orders[i]` is the order in which
      the labels of `instances[i]` are visited. */
  method InstancesToTargets(config: Config.Specification, instances: seq<Instance>, orders: seq<seq<string>>)
    returns (targets: seq<Target>)
    requires Convertible(instances, orders)
    ensures |targets| == |instances|
    ensures targets == ApplyAttributeExcludes(ConvertAll(config.projectId, instances, orders), config.attributeExcludesVm)
  {
    var converted: seq<Target> := [];
    var i := 0;
    while i < |instances|
      invariant 0 <= i <= |instances|
      invariant converted == ConvertAll(config.projectId, instances[..i], orders[..i])
    {
      assert instances[..i + 1][..i] == instances[..i] && orders[..i + 1][..i] == orders[..i];
      converted := converted + [InstanceToTarget(config.projectId, instances[i], orders[i])];
      i := i + 1;
    }
    assert instances[..i] == instances && orders[..i] == orders;
    targets := ApplyAttributeExcludes(converted, config.attributeExcludesVm);
  }

  /** After exclusion, the `i`th reported target is the `i`th instance's
      target with the configured keys dropped. */
  lemma DiscoveredTargetAt(config: Config.Specification, instances: seq<Instance>, orders: seq<seq<string>>, i: nat)
    requires Convertible(instances, orders)
    requires i < |instances|
    ensures var targets := ApplyAttributeExcludes(ConvertAll(config.projectId, instances, orders), config.attributeExcludesVm);
            && |targets| == |instances|
            && targets[i] == ExcludeAttributes(InstanceToTarget(config.projectId, instances[i], orders[i]),
                                               config.attributeExcludesVm)
  {
    ConvertAllAt(config.projectId, instances, orders, i);
  }
}
