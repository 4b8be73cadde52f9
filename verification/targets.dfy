/** The generic discovery target every extension reports, and the attribute
    exclusion the discovery library applies before targets leave the extension. */
module Targets {

  /** Attribute name to its ordered list of values. */
  type Attributes = map<string, seq<string>>

  /** One discovered target: a unique id, the target type, a display label (`Label` in Go; `label` is a Dafny keyword) and
      its attributes. */
  datatype Target = Target(id: string, targetType: string, displayLabel: string, attributes: Attributes)

  /** Drops every attribute whose key is exactly one of `excludes`; id, type,
      label and every other attribute stay as they are. */
  function ExcludeAttributes(t: Target, excludes: seq<string>): (r: Target)
    ensures r.id == t.id && r.targetType == t.targetType && r.displayLabel == t.displayLabel
    ensures forall key :: key in excludes ==> key !in r.attributes
    ensures forall key :: key !in excludes ==>
              (key in r.attributes <==> key in t.attributes)
    ensures forall key :: key in r.attributes ==> key in t.attributes && r.attributes[key] == t.attributes[key]
  {
    t.(attributes := t.attributes - set key | key in excludes)
  }

  /** Applies the exclusion to every target of a batch, keeping the batch's order. */
  function ApplyAttributeExcludes(targets: seq<Target>, excludes: seq<string>): (r: seq<Target>)
    ensures |r| == |targets|
    ensures forall i :: 0 <= i < |targets| ==> r[i] == ExcludeAttributes(targets[i], excludes)
  {
    seq(|targets|, i requires 0 <= i < |targets| => ExcludeAttributes(targets[i], excludes))
  }

  /** Excluding twice with the same keys is excluding once. */
  lemma ExcludeIdempotent(targets: seq<Target>, excludes: seq<string>)
    ensures ApplyAttributeExcludes(ApplyAttributeExcludes(targets, excludes), excludes)
         == ApplyAttributeExcludes(targets, excludes)
  {
    var once := ApplyAttributeExcludes(targets, excludes);
    var twice := ApplyAttributeExcludes(once, excludes);
    forall i | 0 <= i < |targets|
      ensures twice[i] == once[i]
    {
      assert twice[i].attributes == once[i].attributes;
    }
  }

  /** Excluding keys no target has changes nothing. */
  lemma ExcludeAbsentIsNoOp(targets: seq<Target>, excludes: seq<string>)
    requires forall i, key :: 0 <= i < |targets| && key in excludes ==> key !in targets[i].attributes
    ensures ApplyAttributeExcludes(targets, excludes) == targets
  {
    var r := ApplyAttributeExcludes(targets, excludes);
    forall i | 0 <= i < |targets|
      ensures r[i] == targets[i]
    {
      assert r[i].attributes == targets[i].attributes;
    }
  }
}
