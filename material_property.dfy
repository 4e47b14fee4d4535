/**
 * A float material property as the inspector sees it when one or several
 * materials are selected: the value it shows (that of the first selected
 * material), whether the selected materials disagree ("mixed value"), and the
 * value each selected material holds.
 *
 * Ordinals are written only as 0, a counter j, the sentinel 753 and +/-1
 * adjustments of those, so the model stores them as integers.
 */
module MaterialProperty {
  datatype FloatProperty = FloatProperty(name: string, value: int, mixed: bool, targets: seq<int>)

  /** The shown value is the first target's, and the property is mixed exactly
      when some target holds a different value. */
  ghost predicate Coherent(p: FloatProperty) {
    && (|p.targets| > 0 ==> p.value == p.targets[0])
    && (p.mixed <==> exists t :: t in p.targets && t != p.value)
  }

  /** Assigning `floatValue`: the value is stored on every selected material,
      so afterwards the property is no longer mixed. */
  function WithValue(p: FloatProperty, v: int): (r: FloatProperty)
    ensures r.name == p.name && r.value == v && !r.mixed
    ensures |r.targets| == |p.targets|
    ensures forall k :: 0 <= k < |r.targets| ==> r.targets[k] == v
    ensures Coherent(r)
  {
    p.(value := v, mixed := false, targets := seq(|p.targets|, _ => v))
  }

  /** Some selected material holds exactly 0 for this property. */
  ghost predicate HasZeroTarget(p: FloatProperty) {
    exists k :: 0 <= k < |p.targets| && p.targets[k] == 0
  }

  /** Writing back the value a coherent, unmixed property already holds changes nothing. */
  lemma {:induction false} RewriteSameValue(p: FloatProperty)
    requires Coherent(p) && !p.mixed
    ensures WithValue(p, p.value) == p
  {
    forall k | 0 <= k < |p.targets|
      ensures WithValue(p, p.value).targets[k] == p.targets[k]
    {
      assert p.targets[k] in p.targets;
    }
  }
}
