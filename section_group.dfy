/**
 * OrderedSectionGroup: the container that keeps its OrderedSections sorted by
 * their activation values, carries out the push requests the sections record,
 * numbers the enabled sections 1..K, and offers an "add" menu of the sections
 * that are off on some material.
 */
module SectionGroup {
  import opened Wrappers
  import opened MaterialProperty
  import opened Sections
  import opened Ordering

  /** No section appears twice in the list. */
  ghost predicate Distinct(cs: seq<OrderedSection>) {
    forall i, j :: 0 <= i < j < |cs| ==> cs[i] != cs[j]
  }

  /** The snapshot of every section of the list, in list order. */
  function StatesOf(cs: seq<OrderedSection>): (r: seq<SectionState>)
    reads cs
    ensures |r| == |cs| && forall k :: 0 <= k < |cs| ==> r[k] == cs[k].State()
  {
    seq(|cs|, k requires 0 <= k < |cs| reads cs => cs[k].State())
  }

  /** The sections the "add" menu offers: those whose activation value is 0 on
      some material, in list order. */
  ghost function Offered(cs: seq<OrderedSection>): (r: seq<OrderedSection>)
    reads cs
    ensures forall k :: 0 <= k < |r| ==> r[k] in cs && HasZeroTarget(r[k].activation)
    ensures forall k :: 0 <= k < |cs| && HasZeroTarget(cs[k].activation) ==> cs[k] in r
    ensures |r| <= |cs|
  {
    if cs == [] then []
    else
      var rest := Offered(cs[..|cs| - 1]);
      var last := cs[|cs| - 1];
      assert forall k :: 0 <= k < |cs| - 1 ==> cs[..|cs| - 1][k] == cs[k];
      if HasZeroTarget(last.activation) then rest + [last] else rest
  }

  /** One more section of the list looked at by the add menu. */
  lemma OfferedNext(cs: seq<OrderedSection>, k: nat)
    requires k < |cs|
    ensures Offered(cs[..k + 1]) == Offered(cs[..k]) + (if HasZeroTarget(cs[k].activation) then [cs[k]] else [])
  {
    assert cs[..k + 1][..k] == cs[..k];
  }

  /** With an up-to-date cache, the add button is shown exactly when its menu
      would not be empty. */
  lemma MenuMatchesCache(cs: seq<OrderedSection>)
    ensures Offered(cs) != [] <==> AnyZeroTarget(StatesOf(cs))
  {
    if Offered(cs) != [] {
      var s := Offered(cs)[0];
      var k :| 0 <= k < |cs| && cs[k] == s;
      assert HasZeroTarget(StatesOf(cs)[k].activation);
    }
    if AnyZeroTarget(StatesOf(cs)) {
      var k :| 0 <= k < |cs| && HasZeroTarget(StatesOf(cs)[k].activation);
      assert cs[k] in Offered(cs);
    }
  }

  lemma NeighbourSwapIsPermutation<T>(s: seq<T>, j: nat)
    requires j + 1 < |s|
    ensures multiset(s[j := s[j + 1]][j + 1 := s[j]]) == multiset(s)
  {
  }

  /** Exchanging two neighbours of a list of sections exchanges their
      snapshots and keeps the list free of repeats. */
  lemma NeighbourSwapOfSections(r: seq<OrderedSection>, j: nat)
    requires 0 < j < |r|
    ensures multiset(r[j - 1 := r[j]][j := r[j - 1]]) == multiset(r)
    ensures multiset(StatesOf(r[j - 1 := r[j]][j := r[j - 1]])) == multiset(StatesOf(r))
    ensures Distinct(r) ==> Distinct(r[j - 1 := r[j]][j := r[j - 1]])
  {
    NeighbourSwapIsPermutation(r, j - 1);
    StatesOfSwap(r, j);
    if Distinct(r) {
      DistinctSwap(r, j);
    }
  }

  lemma DistinctSwap(r: seq<OrderedSection>, j: nat)
    requires 0 < j < |r| && Distinct(r)
    ensures Distinct(r[j - 1 := r[j]][j := r[j - 1]])
  {
    var r2 := r[j - 1 := r[j]][j := r[j - 1]];
    forall a, b | 0 <= a < b < |r2|
      ensures r2[a] != r2[b]
    {
      var a' := if a == j - 1 then j else if a == j then j - 1 else a;
      var b' := if b == j - 1 then j else if b == j then j - 1 else b;
      assert r2[a] == r[a'] && r2[b] == r[b'] && a' != b';
      if a' > b' {
        assert r[b'] != r[a'];
      }
    }
  }

  lemma StatesOfSwap(r: seq<OrderedSection>, j: nat)
    requires 0 < j < |r|
    ensures multiset(StatesOf(r[j - 1 := r[j]][j := r[j - 1]])) == multiset(StatesOf(r))
  {
    NeighbourSwapIsPermutation(StatesOf(r), j - 1);
    assert StatesOf(r[j - 1 := r[j]][j := r[j - 1]]) == StatesOf(r)[j - 1 := StatesOf(r)[j]][j := StatesOf(r)[j - 1]];
  }

  /** r holds the sections of cs, each once, the one at index k coming from
      index from[k] of cs. */
  ghost predicate Arrangement(cs: seq<OrderedSection>, r: seq<OrderedSection>, from: seq<nat>)
    reads cs, r
  {
    && multiset(r) == multiset(cs) && Distinct(r)
    && multiset(StatesOf(r)) == multiset(StatesOf(cs))
    && |from| == |r| && forall k :: 0 <= k < |r| ==> from[k] < |cs| && r[k] == cs[from[k]]
  }

  /** UpdateSectionsOrder took the list `before`, whose states were `pre`, to
      the list `after`, whose states are `post`: the sort left the states
      `mid`, the section now at index k stood at index from[k], and the
      renumbering gave `post`. */
  ghost predicate ReorderedFrom(before: seq<OrderedSection>, pre: seq<SectionState>,
                                after: seq<OrderedSection>, post: seq<SectionState>,
                                mid: seq<SectionState>, from: seq<nat>)
  {
    && SortedPermutation(pre, mid) && post == Renumbered(mid)
    && |from| == |after| == |mid|
    && forall k :: 0 <= k < |after| ==>
         from[k] < |before| && from[k] < |pre| && after[k] == before[from[k]] && mid[k] == pre[from[k]]
  }

  /** ReorderedFrom, with the arrangement forgotten, is Reordered; so
      ReorderedHoldsOneToM applies to every list a frame reorders. */
  lemma ReorderedFromIsReordered(before: seq<OrderedSection>, pre: seq<SectionState>,
                                 after: seq<OrderedSection>, post: seq<SectionState>,
                                 mid: seq<SectionState>, from: seq<nat>)
    requires ReorderedFrom(before, pre, after, post, mid, from)
    ensures Reordered(pre, post)
  {
    assert SortedPermutation(pre, mid) && post == Renumbered(mid);
  }

  lemma ArrangementSwap(cs: seq<OrderedSection>, r: seq<OrderedSection>, from: seq<nat>, j: nat)
    requires 0 < j < |r| && Arrangement(cs, r, from)
    ensures Arrangement(cs, r[j - 1 := r[j]][j := r[j - 1]], from[j - 1 := from[j]][j := from[j - 1]])
  {
    NeighbourSwapOfSections(r, j);
    TracksSwap(cs, r, from, j);
  }

  lemma TracksSwap(cs: seq<OrderedSection>, r: seq<OrderedSection>, from: seq<nat>, j: nat)
    requires 0 < j < |r| == |from|
    requires forall k :: 0 <= k < |r| ==> from[k] < |cs| && r[k] == cs[from[k]]
    ensures var r2 := r[j - 1 := r[j]][j := r[j - 1]];
            var from2 := from[j - 1 := from[j]][j := from[j - 1]];
            forall k :: 0 <= k < |r2| ==> from2[k] < |cs| && r2[k] == cs[from2[k]]
  {
  }

  lemma InsertionStarts(r: seq<OrderedSection>, i: nat)
    requires i < |r| && SortedBelow(Ordinals(StatesOf(r)), i)
    ensures SortedBelowExcept(Ordinals(StatesOf(r)), i, i)
  {
  }

  /** One exchange of the insertion sort moves the out-of-place value one
      step towards the front. */
  lemma SwapStep(r: seq<OrderedSection>, i: nat, j: nat)
    requires 0 < j <= i < |r|
    requires SortedBelowExcept(Ordinals(StatesOf(r)), i, j)
    requires r[j - 1].activation.value > r[j].activation.value
    ensures SortedBelowExcept(Ordinals(StatesOf(r[j - 1 := r[j]][j := r[j - 1]])), i, j - 1)
  {
    ValuesAreOrdinals(r);
    InsertionStep(Ordinals(StatesOf(r)), i, j);
    OrdinalsOfSwap(r, j - 1);
  }

  lemma SwapsDone(r: seq<OrderedSection>, i: nat, j: nat)
    requires j <= i < |r| && SortedBelowExcept(Ordinals(StatesOf(r)), i, j)
    requires j == 0 || r[j - 1].activation.value <= r[j].activation.value
    ensures SortedBelow(Ordinals(StatesOf(r)), i + 1)
  {
    ValuesAreOrdinals(r);
    InsertionDone(Ordinals(StatesOf(r)), i, j);
  }

  lemma ValuesAreOrdinals(r: seq<OrderedSection>)
    ensures forall k :: 0 <= k < |r| ==> Ordinals(StatesOf(r))[k] == r[k].activation.value
  {
  }

  function Swapped(v: seq<int>, j: nat): seq<int>
    requires j + 1 < |v|
  {
    v[j := v[j + 1]][j + 1 := v[j]]
  }

  lemma OrdinalsOfSwap(r: seq<OrderedSection>, j: nat)
    requires j + 1 < |r|
    ensures Ordinals(StatesOf(r[j := r[j + 1]][j + 1 := r[j]])) == Swapped(Ordinals(StatesOf(r)), j)
  {
  }

  /** The first i values are in ascending order. */
  ghost predicate SortedBelow(v: seq<int>, i: nat) {
    forall a, b :: 0 <= a < b < i && b < |v| ==> v[a] <= v[b]
  }

  /** The first i + 1 values are in ascending order, except that the value at
      j may be smaller than those before it. */
  ghost predicate SortedBelowExcept(v: seq<int>, i: nat, j: nat) {
    forall a, b :: 0 <= a < b <= i && b < |v| && b != j ==> v[a] <= v[b]
  }

  lemma {:induction false} InsertionStep(v: seq<int>, i: nat, j: nat)
    requires 0 < j <= i < |v| && SortedBelowExcept(v, i, j) && v[j - 1] > v[j]
    ensures SortedBelowExcept(Swapped(v, j - 1), i, j - 1)
  {
    var w := Swapped(v, j - 1);
    forall a, b | 0 <= a < b <= i && b != j - 1
      ensures w[a] <= w[b]
    {
      if b == j && a < j - 1 {
        assert v[a] <= v[j - 1];
      } else if a == j - 1 && b > j {
        assert v[j] <= v[b];
      }
    }
  }

  lemma {:induction false} InsertionDone(v: seq<int>, i: nat, j: nat)
    requires j <= i < |v| && SortedBelowExcept(v, i, j) && (j == 0 || v[j - 1] <= v[j])
    ensures SortedBelow(v, i + 1)
  {
    forall a, b | 0 <= a < b < i + 1
      ensures v[a] <= v[b]
    {
      if b == j && a < j - 1 {
        assert v[a] <= v[j - 1];
      }
    }
  }

  /** One pass of the renumbering loop: the k-th entry takes its renumbered
      value, and the counter moves on exactly when that entry is renumberable. */
  lemma RenumberStep(pre: seq<SectionState>, r: seq<SectionState>, k: nat)
    requires k < |pre| && r == Renumbered(pre)
    ensures var cur := r[..k] + pre[k..];
            && |cur| == |pre| && cur[k] == pre[k]
            && r[..k + 1] + pre[k + 1..] == cur[k := RenumberedAt(pre, k)]
    ensures CountRenumberable(pre[..k + 1])
            == CountRenumberable(pre[..k]) + (if Renumberable(pre[k].activation) then 1 else 0)
    ensures RenumberedAt(pre, k)
            == if Renumberable(pre[k].activation)
               then pre[k].(activation := WithValue(pre[k].activation, 1 + CountRenumberable(pre[..k])))
               else pre[k]
  {
    var cur := r[..k] + pre[k..];
    var next := r[..k + 1] + pre[k + 1..];
    assert r[k] == RenumberedAt(pre, k);
    assert |next| == |cur| == |pre|;
    forall m | 0 <= m < |pre|
      ensures next[m] == cur[k := RenumberedAt(pre, k)][m]
    {
      if m < k {
        assert next[m] == r[m] == cur[m];
      }
    }
    assert pre[..k + 1][..k] == pre[..k];
  }

  lemma WholePrefix<T>(a: seq<T>, b: seq<T>)
    requires |a| == |b|
    ensures a[..|a|] + b[|b|..] == a
  {
    assert b[|b|..] == [];
  }

  lemma ExchangeInSteps(d: seq<SectionState>, i: nat, j: nat, delta: int)
    requires i < |d| && j < |d| && i != j
    ensures var d2 := d[i := Bumped(d[i], delta)][j := Bumped(d[j], -delta)];
            d2[i := d2[i].(pushState := 0)] == Exchanged(d, i, j, delta)
  {
  }

  /** The sort of TurnOnSection, followed through the indices it records:
      the section that came from index p, the only one at the sentinel, is
      the last one, and the renumbering gives it M. */
  lemma TurnedOnSectionLandsLast(pre: seq<SectionState>, mid: seq<SectionState>, from: seq<nat>, p: nat)
    requires p < |pre| == |mid| == |from|
    requires forall k :: 0 <= k < |mid| ==> from[k] < |pre| && mid[k] == pre[from[k]]
    requires pre[p].activation.value == Sentinel && !pre[p].activation.mixed
    requires forall k :: 0 <= k < |pre| && k != p ==> pre[k].activation.value < Sentinel
    requires SortedPermutation(pre, mid)
    ensures from[|mid| - 1] == p
    ensures Renumbered(mid)[|mid| - 1].activation.value == CountRenumberable(Renumbered(mid))
  {
    TurnedOnSectionGoesLast(pre, p, mid);
    assert mid[|mid| - 1] == pre[from[|mid| - 1]];
  }

  /** Every section other than the one at p has an ordinal below the sentinel. */
  ghost predicate OthersBelowSentinel(ss: seq<SectionState>, p: nat) {
    forall k :: 0 <= k < |ss| && k != p ==> ss[k].activation.value < Sentinel
  }

  /** `section` is the last of the list and holds M, the number of
      renumbered sections of `states`. */
  ghost predicate EndsWith(cs: seq<OrderedSection>, section: OrderedSection, states: seq<SectionState>)
    reads section
  {
    cs != [] && cs[|cs| - 1] == section && section.activation.value == CountRenumberable(states)
  }

  /** The same, for the sections themselves: the section that stood at p
      ends last, with ordinal M. */
  lemma SectionLandsLast(before: seq<OrderedSection>, cs: seq<OrderedSection>, states: seq<SectionState>,
                         pre: seq<SectionState>, mid: seq<SectionState>, from: seq<nat>, p: nat,
                         section: OrderedSection)
    requires p < |before| && p < |pre| && |cs| == |pre| == |mid| == |from|
    requires before[p] == section && states == StatesOf(cs)
    requires forall k :: 0 <= k < |cs| ==> from[k] < |before| && cs[k] == before[from[k]]
    requires forall k :: 0 <= k < |mid| ==> from[k] < |pre| && mid[k] == pre[from[k]]
    requires pre[p].activation.value == Sentinel && !pre[p].activation.mixed
    requires SortedPermutation(pre, mid) && states == Renumbered(mid)
    ensures OthersBelowSentinel(pre, p) ==> EndsWith(cs, section, states)
  {
    if OthersBelowSentinel(pre, p) {
      TurnedOnSectionLandsLast(pre, mid, from, p);
      var n := |cs|;
      assert from[n - 1] == p;
      assert cs[n - 1] == section;
      assert states[n - 1] == section.State();
    }
  }

  /** A control the generic container interface may hand over. */
  datatype Control = Ordered(section: OrderedSection) | OtherControl

  class OrderedSectionGroup {
    /** The sections, in drawing order. */
    var controls: seq<OrderedSection>
    /** The "new sections are available" cache; None until first computed. */
    var areNewSectionsAvailable: Option<bool>

    ghost predicate Valid()
      reads this`controls, controls
    {
      Distinct(controls) && forall k :: 0 <= k < |controls| ==> controls[k].Valid()
    }

    function States(): (r: seq<SectionState>)
      reads this`controls, controls
      ensures |r| == |controls|
    {
      StatesOf(controls)
    }

    constructor ()
      ensures Valid()
      ensures controls == [] && areNewSectionsAvailable == None
    {
      controls := [];
      areNewSectionsAvailable := None;
    }

    /** AddControl(OrderedSection): appended at the end. */
    method AddControl(section: OrderedSection)
      requires Valid() && section.Valid() && section !in controls
      modifies this`controls
      ensures Valid()
      ensures controls == old(controls) + [section]
    {
      controls := controls + [section];
    }

    /** The non-generic AddControl: only an OrderedSection is appended; any
        other control is ignored. */
    method AddAnyControl(control: Control)
      requires Valid()
      requires control.Ordered? ==> control.section.Valid() && control.section !in controls
      modifies this`controls
      ensures Valid()
      ensures controls == if control.Ordered? then old(controls) + [control.section] else old(controls)
    {
      if control.Ordered? {
        AddControl(control.section);
      }
    }

    /** Controls.Sort(CompareSectionsOrder): an insertion sort by adjacent
        exchanges. Nothing is written to the sections; the result is some
        arrangement of the same sections in ascending activation value. */
    static method SortByOrdinal(cs: seq<OrderedSection>) returns (r: seq<OrderedSection>, ghost from: seq<nat>)
      requires Distinct(cs)
      ensures |r| == |cs| && multiset(r) == multiset(cs) && Distinct(r)
      ensures |from| == |r| && forall k :: 0 <= k < |r| ==> from[k] < |cs| && r[k] == cs[from[k]]
      ensures SortedPermutation(StatesOf(cs), StatesOf(r))
    {
      r, from := cs, seq(|cs|, k => k);
      var i := 0;
      while i < |r|
        invariant 0 <= i <= |r| == |cs|
        invariant Arrangement(cs, r, from)
        invariant SortedBelow(Ordinals(StatesOf(r)), i)
      {
        r, from := InsertNext(cs, r, from, i);
        i := i + 1;
      }
    }

    /** One pass of the outer loop of the insertion sort: the section at index
        i moves towards the front, one exchange at a time, while the one
        before it compares greater. */
    static method InsertNext(cs: seq<OrderedSection>, r0: seq<OrderedSection>, ghost from0: seq<nat>, i: nat)
      returns (r: seq<OrderedSection>, ghost from: seq<nat>)
      requires i < |r0| && Arrangement(cs, r0, from0) && SortedBelow(Ordinals(StatesOf(r0)), i)
      ensures |r| == |r0| && Arrangement(cs, r, from) && SortedBelow(Ordinals(StatesOf(r)), i + 1)
    {
      r, from := r0, from0;
      var j := i;
      InsertionStarts(r, i);
      while 0 < j && CompareSectionsOrder(Some(r[j - 1].activation.value), Some(r[j].activation.value)) > 0
        invariant 0 <= j <= i < |r| == |r0|
        invariant Arrangement(cs, r, from)
        invariant SortedBelowExcept(Ordinals(StatesOf(r)), i, j)
      {
        SwapStep(r, i, j);
        ArrangementSwap(cs, r, from, j);
        r := r[j - 1 := r[j]][j := r[j - 1]];
        from := from[j - 1 := from[j]][j := from[j - 1]];
        j := j - 1;
      }
      SwapsDone(r, i, j);
    }

    /** UpdateSectionsOrder: sort the list, then renumber it. `mid` is the
        list just after the sort; the section at index k of the new list
        stood at index from[k]. */
    method UpdateSectionsOrder() returns (ghost mid: seq<SectionState>, ghost from: seq<nat>)
      requires Valid()
      modifies this`controls, controls
      ensures Valid()
      ensures multiset(controls) == old(multiset(controls))
      ensures |from| == |controls| == |mid| == old(|controls|)
      ensures forall k :: 0 <= k < |controls| ==>
                from[k] < |mid| && controls[k] == old(controls[from[k]]) && mid[k] == old(States()[from[k]])
      ensures SortedPermutation(old(States()), mid)
      ensures States() == Renumbered(mid)
    {
      from := SortControls();
      mid := States();
      Renumber();
    }

    /** `Controls.Sort(CompareSectionsOrder)` */
    method SortControls() returns (ghost from: seq<nat>)
      requires Valid()
      modifies this`controls
      ensures Valid()
      ensures multiset(controls) == old(multiset(controls))
      ensures |from| == |controls| == old(|controls|)
      ensures forall k :: 0 <= k < |controls| ==>
                from[k] < |controls| && controls[k] == old(controls[from[k]]) && States()[k] == old(States()[from[k]])
      ensures SortedPermutation(old(States()), States())
    {
      var sorted;
      sorted, from := SortByOrdinal(controls);
      assert forall k :: 0 <= k < |sorted| ==> sorted[k].Valid();
      controls := sorted;
    }

    /** The loop of UpdateSectionsOrder after the sort: a counter starting at
        1 is written to every non-zero, non-mixed activation property in list
        order, and incremented after each. */
    method Renumber()
      requires Valid()
      modifies controls
      ensures Valid()
      ensures States() == Renumbered(old(States()))
    {
      ghost var pre := States();
      var j := 1;
      var k := 0;
      while k < |controls|
        invariant 0 <= k <= |controls| == |pre|
        invariant Valid()
        invariant j == 1 + CountRenumberable(pre[..k])
        invariant controls == old(controls)
        invariant States() == Renumbered(pre)[..k] + pre[k..]
      {
        j := RenumberOne(pre, k, j);
        k := k + 1;
      }
      WholePrefix(Renumbered(pre), pre);
    }

    /** One pass of the renumbering loop, on the section at index k. */
    method RenumberOne(ghost pre: seq<SectionState>, k: nat, j: int) returns (next: int)
      requires Valid() && k < |controls| == |pre|
      requires j == 1 + CountRenumberable(pre[..k])
      requires States() == Renumbered(pre)[..k] + pre[k..]
      modifies controls[k]
      ensures Valid()
      ensures next == 1 + CountRenumberable(pre[..k + 1])
      ensures States() == Renumbered(pre)[..k + 1] + pre[k + 1..]
    {
      RenumberStep(pre, Renumbered(pre), k);
      next := j;
      if controls[k].activation.value != 0 && !controls[k].activation.mixed {
        WriteOrdinal(k, j);
        next := j + 1;
      }
    }

    /** `floatValue = v` on the activation property of the section at index k. */
    method WriteOrdinal(k: nat, v: int)
      requires Valid() && k < |controls|
      modifies controls[k]
      ensures Valid()
      ensures States() == old(States())[k := old(States())[k].(activation := WithValue(old(controls[k].activation), v))]
    {
      controls[k].activation := WithValue(controls[k].activation, v);
      assert forall m :: 0 <= m < |controls| && m != k ==> controls[m] != controls[k];
    }
  
    /** Draws the section at index k (its ControlGUI, with the side buttons). */
    method DrawSection(k: nat, c: Clicks)
      requires Valid() && k < |controls|
      modifies controls[k]
      ensures Valid()
      ensures States() == old(States())[k := AfterControlGUI(old(States())[k], c)]
    {
      controls[k].ControlGUI(c);
      assert forall m :: 0 <= m < |controls| && m != k ==> controls[m] != controls[k];
    }

    /** `Controls[k].PushState = 0` */
    method ConsumePush(k: nat)
      requires Valid() && k < |controls|
      modifies controls[k]
      ensures Valid()
      ensures States() == old(States())[k := old(States())[k].(pushState := 0)]
    {
      controls[k].pushState := 0;
      assert forall m :: 0 <= m < |controls| && m != k ==> controls[m] != controls[k];
    }

    /** The body of the frame loop for index i, with the neighbour check on a
        push down. Returns whether it asks for a renumbering and whether it
        asks for the "new sections" cache to be refreshed. */
    method DrawAt(i: nat, c: Clicks) returns (order: bool, avail: bool)
      requires Valid() && i < |controls|
      modifies controls
      ensures Valid()
      ensures (States(), order, avail) == DrawStep(old(States()), c, i)
    {
      var section := controls[i];
      if !section.enabled {
        return false, false;
      }
      DrawSection(i, c);
      if section.pushState != 0 {
        CarryOutPush(i);
        return true, false;
      }
      return false, section.hasActivatePropertyUpdated;
    }

    /** The push handling of the frame loop for index i. */
    method CarryOutPush(i: nat)
      requires Valid() && i < |controls|
      modifies controls
      ensures Valid()
      ensures States() == ApplyPush(old(States()), i)
    {
      var section := controls[i];
      if section.pushState == 1 && i < |controls| - 1 && controls[i + 1].enabled {
        Exchange(i, i + 1, 1);
      } else if section.pushState == -1 && 0 < i && controls[i - 1].enabled {
        Exchange(i, i - 1, -1);
      } else {
        ConsumePush(i);
      }
    }

    /** `floatValue += delta` at i, `floatValue -= delta` at j, then
        `PushState = 0` at i. */
    method Exchange(i: nat, j: nat, delta: int)
      requires Valid() && i < |controls| && j < |controls| && i != j
      modifies controls
      ensures Valid()
      ensures States() == Exchanged(old(States()), i, j, delta)
    {
      ghost var d := States();
      WriteOrdinal(i, controls[i].activation.value + delta);
      ghost var d1 := States();
      assert d1 == d[i := Bumped(d[i], delta)];
      assert controls[j].activation == d1[j].activation == d[j].activation;
      WriteOrdinal(j, controls[j].activation.value - delta);
      ghost var d2 := States();
      assert d2 == d1[j := Bumped(d[j], -delta)];
      ConsumePush(i);
      ExchangeInSteps(d, i, j, delta);
    }

    /** The PredrawUpdate pass over the list. */
    method PredrawSections()
      requires Valid()
      modifies controls
      ensures Valid()
      ensures States() == PredrawAll(old(States()))
    {
      ghost var pre := States();
      var k := 0;
      while k < |controls|
        invariant 0 <= k <= |controls| == |pre|
        invariant controls == old(controls) && Valid()
        invariant States() == PredrawAll(pre)[..k] + pre[k..]
      {
        PredrawOne(pre, k);
        k := k + 1;
      }
      WholePrefix(PredrawAll(pre), pre);
    }

    method PredrawOne(ghost pre: seq<SectionState>, k: nat)
      requires Valid() && k < |controls| == |pre|
      requires States() == PredrawAll(pre)[..k] + pre[k..]
      modifies controls[k]
      ensures Valid()
      ensures States() == PredrawAll(pre)[..k + 1] + pre[k + 1..]
    {
      controls[k].PredrawUpdate();
      assert forall m :: 0 <= m < |controls| && m != k ==> controls[m] != controls[k];
      assert PredrawAll(pre)[..k + 1] + pre[k + 1..] == (PredrawAll(pre)[..k] + pre[k..])[k := Predrawn(pre[k])];
    }

    /** HasAtLeastOneDisabled: whether the activation value is 0 on some
        material the property is shown for. */
    static method HasAtLeastOneDisabled(section: OrderedSection) returns (yesItHas: bool)
      ensures yesItHas <==> HasZeroTarget(section.activation)
    {
      yesItHas := false;
      var targets := section.activation.targets;
      var m := 0;
      while m < |targets|
        invariant 0 <= m <= |targets| && !yesItHas
        invariant forall q :: 0 <= q < m ==> targets[q] != 0
      {
        yesItHas := targets[m] == 0;
        if yesItHas {
          break;
        }
        m := m + 1;
      }
    }

    /** AreNewSectionsAvailable: whether some section is off on some material. */
    method AreNewSectionsAvailable() returns (yesThereAre: bool)
      requires Valid()
      ensures yesThereAre <==> AnyZeroTarget(States())
    {
      yesThereAre := false;
      var k := 0;
      while k < |controls|
        invariant 0 <= k <= |controls| && !yesThereAre
        invariant forall q :: 0 <= q < k ==> !HasZeroTarget(controls[q].activation)
      {
        yesThereAre := HasAtLeastOneDisabled(controls[k]);
        if yesThereAre {
          break;
        }
        k := k + 1;
      }
      assert forall q :: 0 <= q < |controls| ==> States()[q].activation == controls[q].activation;
    }

    /** DrawAddButton: the button is shown unless the cache says that no
        section can be added; when it is pressed, the menu lists the sections
        that are off on some material, in list order. */
    method DrawAddButton(pressed: bool) returns (shown: bool, menu: seq<OrderedSection>)
      requires Valid()
      ensures shown == areNewSectionsAvailable.GetOr(true)
      ensures menu == if shown && pressed then Offered(controls) else []
    {
      shown := areNewSectionsAvailable.GetOr(true);
      menu := [];
      if shown && pressed {
        menu := CollectOffered();
      }
    }

    /** The menu of the add button: the sections that are off on some
        material, in list order. */
    method CollectOffered() returns (menu: seq<OrderedSection>)
      requires Valid()
      ensures menu == Offered(controls)
    {
      menu := [];
      var k := 0;
      while k < |controls|
        invariant 0 <= k <= |controls|
        invariant menu == Offered(controls[..k])
      {
        OfferedNext(controls, k);
        var yes := HasAtLeastOneDisabled(controls[k]);
        if yes {
          menu := menu + [controls[k]];
        }
        k := k + 1;
      }
      assert controls[..k] == controls;
    }

    /** The menu action of the add button, on one of the group's sections:
        the section at index p gets the sentinel ordinal and the "turned on"
        notice (`written`), the cache is refreshed from that list, and the
        list is sorted (`mid`) and renumbered. While the other ordinals are
        below the sentinel, the section ends last, numbered M. */
    method TurnOnSection(section: OrderedSection) returns (ghost p: nat, ghost written: seq<SectionState>, ghost mid: seq<SectionState>)
      requires Valid() && section in controls
      modifies this`controls, this`areNewSectionsAvailable, controls
      ensures Valid() && multiset(controls) == old(multiset(controls)) && |controls| == old(|controls|)
      ensures p < old(|controls|) && old(controls[p]) == section
      ensures written == old(States())[p := TurnedOn(old(States())[p])]
      ensures areNewSectionsAvailable == Some(AnyZeroTarget(written))
      ensures SortedPermutation(written, mid) && States() == Renumbered(mid)
      ensures OthersBelowSentinel(written, p) ==> EndsWith(controls, section, States())
    {
      p, written := MarkAndRefresh(section);
      mid := ReorderAfterTurnOn(section, p, written);
    }

    /** The first two steps of TurnOnSection: the section gets the sentinel
        and the "turned on" notice, and the cache is refreshed. */
    method MarkAndRefresh(section: OrderedSection) returns (ghost p: nat, ghost written: seq<SectionState>)
      requires Valid() && section in controls
      modifies this`areNewSectionsAvailable, section
      ensures Valid() && p < |controls| && controls[p] == section
      ensures written == States() == old(States())[p := TurnedOn(old(States())[p])]
      ensures written[p].activation.value == Sentinel && !written[p].activation.mixed
      ensures areNewSectionsAvailable == Some(AnyZeroTarget(written))
    {
      p := MarkTurnedOn(section);
      written := States();
      var yes := AreNewSectionsAvailable();
      areNewSectionsAvailable := Some(yes);
    }

    /** The UpdateSectionsOrder call of TurnOnSection, with what it means for
        the section just turned on. */
    method ReorderAfterTurnOn(section: OrderedSection, ghost p: nat, ghost pre: seq<SectionState>)
      returns (ghost mid: seq<SectionState>)
      requires Valid() && p < |controls| && controls[p] == section && pre == States()
      requires pre[p].activation.value == Sentinel && !pre[p].activation.mixed
      modifies this`controls, controls
      ensures Valid() && multiset(controls) == old(multiset(controls)) && |controls| == old(|controls|)
      ensures SortedPermutation(pre, mid) && States() == Renumbered(mid)
      ensures OthersBelowSentinel(pre, p) ==> EndsWith(controls, section, States())
    {
      ghost var before := controls;
      ghost var from;
      mid, from := UpdateSectionsOrder();
      assert forall k :: 0 <= k < |controls| ==> from[k] < |before| && controls[k] == before[from[k]];
      assert forall k :: 0 <= k < |mid| ==> from[k] < |pre| && mid[k] == pre[from[k]];
      ghost var after := States();
      SectionLandsLast(before, controls, after, pre, mid, from, p, section);
    }

    method MarkTurnedOn(section: OrderedSection) returns (ghost p: nat)
      requires Valid() && section in controls
      modifies section
      ensures Valid()
      ensures p < |controls| && controls[p] == section
      ensures States() == old(States())[p := TurnedOn(old(States())[p])]
    {
      p :| 0 <= p < |controls| && controls[p] == section;
      section.activation := WithValue(section.activation, Sentinel);
      section.hasSectionTurnedOn := true;
      assert forall m :: 0 <= m < |controls| && m != p ==> controls[m] != controls[p];
    }
  
    /** OrderedSectionGroup.ControlGUI, one frame. clicks[k] is what the user
        does to the section drawn at index k, and addPressed whether the add
        button is pressed. The sections are predrawn; on the first frame
        (empty cache) the list is sorted and renumbered (`start`); the frame
        loop runs (`drawn`); the cache is refreshed on the first frame or
        when an activation property changed; a frame with a push ends with a
        sort and a renumbering; and the add button shows its menu. */
    method ControlGUI(clicks: seq<Clicks>, addPressed: bool)
      returns (ghost ordered: seq<OrderedSection>, ghost start: seq<SectionState>, ghost drawn: seq<SectionState>,
               needsOrderUpdate: bool, needsSectionAvailabilityUpdate: bool, menu: seq<OrderedSection>,
               ghost mid0: seq<SectionState>, ghost from0: seq<nat>, ghost mid1: seq<SectionState>, ghost from1: seq<nat>)
      requires Valid() && |clicks| == |controls|
      modifies this`controls, this`areNewSectionsAvailable, controls
      ensures Valid() && multiset(controls) == old(multiset(controls))
      ensures old(areNewSectionsAvailable).None? ==>
                ReorderedFrom(old(controls), PredrawAll(old(States())), ordered, start, mid0, from0)
      ensures old(areNewSectionsAvailable).Some? ==> ordered == old(controls) && start == PredrawAll(old(States()))
      ensures |start| == |clicks|
      ensures (drawn, needsOrderUpdate, needsSectionAvailabilityUpdate) == DrawLoop(start, clicks, |start|)
      ensures areNewSectionsAvailable
              == if old(areNewSectionsAvailable).None? || needsSectionAvailabilityUpdate
                 then Some(AnyZeroTarget(drawn)) else old(areNewSectionsAvailable)
      ensures needsOrderUpdate ==> ReorderedFrom(ordered, drawn, controls, States(), mid1, from1)
      ensures !needsOrderUpdate ==> controls == ordered && States() == drawn
      ensures menu == if areNewSectionsAvailable.GetOr(true) && addPressed then Offered(controls) else []
    {
      ghost var initial, before, cache := States(), controls, areNewSectionsAvailable;
      start, mid0, from0 := BeginFrame();
      ordered := controls;
      assert areNewSectionsAvailable == cache && start == States() && |start| == |clicks|;
      assert cache.None? ==> ReorderedFrom(before, PredrawAll(initial), ordered, start, mid0, from0);
      assert cache.Some? ==> ordered == before && start == PredrawAll(initial);
      drawn, needsOrderUpdate, needsSectionAvailabilityUpdate, menu, mid1, from1 := DrawAndEnd(clicks, addPressed);
      assert (drawn, needsOrderUpdate, needsSectionAvailabilityUpdate) == DrawLoop(start, clicks, |start|);
    }

    /** The frame loop followed by the end of the frame. */
    method DrawAndEnd(clicks: seq<Clicks>, addPressed: bool)
      returns (ghost drawn: seq<SectionState>, needsOrderUpdate: bool, needsSectionAvailabilityUpdate: bool,
               menu: seq<OrderedSection>, ghost mid: seq<SectionState>, ghost from: seq<nat>)
      requires Valid() && |clicks| == |controls|
      modifies this`controls, this`areNewSectionsAvailable, controls
      ensures Valid() && multiset(controls) == old(multiset(controls))
      ensures (drawn, needsOrderUpdate, needsSectionAvailabilityUpdate) == DrawLoop(old(States()), clicks, |clicks|)
      ensures areNewSectionsAvailable
              == if old(areNewSectionsAvailable).None? || needsSectionAvailabilityUpdate
                 then Some(AnyZeroTarget(drawn)) else old(areNewSectionsAvailable)
      ensures needsOrderUpdate ==> ReorderedFrom(old(controls), drawn, controls, States(), mid, from)
      ensures !needsOrderUpdate ==> controls == old(controls) && States() == drawn
      ensures menu == if areNewSectionsAvailable.GetOr(true) && addPressed then Offered(controls) else []
    {
      needsOrderUpdate, needsSectionAvailabilityUpdate := DrawAll(clicks);
      drawn := States();
      menu, mid, from := EndFrame(needsOrderUpdate, needsSectionAvailabilityUpdate, addPressed);
    }

    /** The PredrawUpdate pass, then the sort on the first frame. */
    method BeginFrame() returns (ghost start: seq<SectionState>, ghost mid: seq<SectionState>, ghost from: seq<nat>)
      requires Valid()
      modifies this`controls, controls
      ensures Valid() && multiset(controls) == old(multiset(controls)) && |controls| == old(|controls|)
      ensures forall k :: 0 <= k < |controls| ==> controls[k] in old(controls)
      ensures start == States()
      ensures areNewSectionsAvailable.None? ==>
                ReorderedFrom(old(controls), PredrawAll(old(States())), controls, start, mid, from)
      ensures areNewSectionsAvailable.Some? ==> controls == old(controls) && start == PredrawAll(old(States()))
    {
      PredrawSections();
      start, mid, from := OrderOnFirstFrame();
      assert |controls| == |multiset(controls)| == old(|multiset(controls)|) == old(|controls|);
      forall k | 0 <= k < |controls|
        ensures controls[k] in old(controls)
      {
        assert controls[k] in multiset(controls);
      }
    }

    /** After the frame loop: the cache refresh, the sort a push asks for,
        and the add button. */
    method EndFrame(needsOrderUpdate: bool, needsSectionAvailabilityUpdate: bool, addPressed: bool)
      returns (menu: seq<OrderedSection>, ghost mid: seq<SectionState>, ghost from: seq<nat>)
      requires Valid()
      modifies this`controls, this`areNewSectionsAvailable, controls
      ensures Valid() && multiset(controls) == old(multiset(controls))
      ensures areNewSectionsAvailable
              == if old(areNewSectionsAvailable).None? || needsSectionAvailabilityUpdate
                 then Some(AnyZeroTarget(old(States()))) else old(areNewSectionsAvailable)
      ensures needsOrderUpdate ==> ReorderedFrom(old(controls), old(States()), controls, States(), mid, from)
      ensures !needsOrderUpdate ==> controls == old(controls) && States() == old(States())
      ensures menu == if areNewSectionsAvailable.GetOr(true) && addPressed then Offered(controls) else []
    {
      mid, from := RefreshAndReorder(needsOrderUpdate, needsSectionAvailabilityUpdate);
      var shown;
      shown, menu := DrawAddButton(addPressed);
    }

    /** Lines 102-106: the cache refresh, then the sort a push asks for. */
    method RefreshAndReorder(needsOrderUpdate: bool, needsSectionAvailabilityUpdate: bool)
      returns (ghost mid: seq<SectionState>, ghost from: seq<nat>)
      requires Valid()
      modifies this`controls, this`areNewSectionsAvailable, controls
      ensures Valid() && multiset(controls) == old(multiset(controls))
      ensures areNewSectionsAvailable
              == if old(areNewSectionsAvailable).None? || needsSectionAvailabilityUpdate
                 then Some(AnyZeroTarget(old(States()))) else old(areNewSectionsAvailable)
      ensures needsOrderUpdate ==> ReorderedFrom(old(controls), old(States()), controls, States(), mid, from)
      ensures !needsOrderUpdate ==> controls == old(controls) && States() == old(States())
    {
      RefreshCache(needsSectionAvailabilityUpdate);
      mid, from := ReorderIfPushed(needsOrderUpdate);
    }

    method RefreshCache(needsSectionAvailabilityUpdate: bool)
      requires Valid()
      modifies this`areNewSectionsAvailable
      ensures areNewSectionsAvailable
              == if old(areNewSectionsAvailable).None? || needsSectionAvailabilityUpdate
                 then Some(AnyZeroTarget(States())) else old(areNewSectionsAvailable)
    {
      if areNewSectionsAvailable.None? || needsSectionAvailabilityUpdate {
        var yes := AreNewSectionsAvailable();
        areNewSectionsAvailable := Some(yes);
      }
    }

    method ReorderIfPushed(needsOrderUpdate: bool) returns (ghost mid: seq<SectionState>, ghost from: seq<nat>)
      requires Valid()
      modifies this`controls, controls
      ensures Valid() && multiset(controls) == old(multiset(controls))
      ensures needsOrderUpdate ==> ReorderedFrom(old(controls), old(States()), controls, States(), mid, from)
      ensures !needsOrderUpdate ==> controls == old(controls) && States() == old(States())
    {
      mid, from := [], [];
      if needsOrderUpdate {
        mid, from := UpdateSectionsOrder();
      }
    }

    /** `if (_areNewSectionsAvailable == null) UpdateSectionsOrder();` */
    method OrderOnFirstFrame() returns (ghost start: seq<SectionState>, ghost mid: seq<SectionState>, ghost from: seq<nat>)
      requires Valid()
      modifies this`controls, controls
      ensures Valid() && multiset(controls) == old(multiset(controls))
      ensures start == States()
      ensures areNewSectionsAvailable.None? ==> ReorderedFrom(old(controls), old(States()), controls, start, mid, from)
      ensures areNewSectionsAvailable.Some? ==> controls == old(controls) && start == old(States())
    {
      mid, from := [], [];
      if areNewSectionsAvailable.None? {
        mid, from := UpdateSectionsOrder();
      }
      start := States();
    }

    /** The frame loop over the list, with the neighbour check on a push down. */
    method DrawAll(clicks: seq<Clicks>) returns (needsOrderUpdate: bool, needsSectionAvailabilityUpdate: bool)
      requires Valid() && |clicks| == |controls|
      modifies controls
      ensures Valid()
      ensures (States(), needsOrderUpdate, needsSectionAvailabilityUpdate) == DrawLoop(old(States()), clicks, |controls|)
    {
      ghost var start := States();
      needsOrderUpdate, needsSectionAvailabilityUpdate := false, false;
      var i := 0;
      while i < |controls|
        invariant 0 <= i <= |controls| == |start|
        invariant controls == old(controls) && Valid()
        invariant (States(), needsOrderUpdate, needsSectionAvailabilityUpdate) == DrawLoop(start, clicks, i)
      {
        needsOrderUpdate, needsSectionAvailabilityUpdate :=
          DrawIteration(start, clicks, i, needsOrderUpdate, needsSectionAvailabilityUpdate);
        i := i + 1;
      }
    }

    /** One iteration of the frame loop, with the flags gathered so far. */
    method DrawIteration(ghost start: seq<SectionState>, clicks: seq<Clicks>, i: nat, order0: bool, avail0: bool)
      returns (order: bool, avail: bool)
      requires Valid() && i < |controls| == |start| == |clicks|
      requires (States(), order0, avail0) == DrawLoop(start, clicks, i)
      modifies controls
      ensures controls == old(controls) && Valid()
      ensures (States(), order, avail) == DrawLoop(start, clicks, i + 1)
    {
      ghost var prev := (States(), order0, avail0);
      var o, a := DrawAt(i, clicks[i]);
      DrawLoopNext(start, clicks, i + 1, prev, States(), o, a);
      order, avail := order0 || o, avail0 || a;
    }
  }
}
