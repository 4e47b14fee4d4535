/**
 * The ordinal protocol of OrderedSectionGroup, stated on the sections' states
 * in list order: the comparer, the renumbering pass, the push handling of the
 * frame loop, and what they guarantee together.
 */
module Ordering {
  import opened Wrappers
  import opened MaterialProperty
  import opened Sections

  /** TurnOnSection writes this value so that the section sorts after every
      enabled one. */
  const Sentinel: int := 753

  function Ordinals(ss: seq<SectionState>): (r: seq<int>)
    ensures |r| == |ss|
    ensures forall k :: 0 <= k < |ss| ==> r[k] == ss[k].activation.value
  {
    seq(|ss|, k requires 0 <= k < |ss| => ss[k].activation.value)
  }

  // ---------------------------------------------------------------------------
  // CompareSectionsOrder

  /** The order the comparer is meant to implement: an absent (null) section
      comes before every section, and sections go by ascending activation value. */
  ghost predicate Precedes(x: Option<int>, y: Option<int>) {
    || (x.None? && y.Some?)
    || (x.Some? && y.Some? && x.value < y.value)
  }

  /** CompareSectionsOrder, on the activation values of the two sections
      (None for a null section). */
  function CompareSectionsOrder(x: Option<int>, y: Option<int>): (r: int)
    ensures r == -1 || r == 0 || r == 1
    ensures r < 0 <==> Precedes(x, y)
    ensures r > 0 <==> Precedes(y, x)
    ensures r == 0 <==> x == y
  {
    if x.None? then (if y.None? then 0 else -1)
    else if y.None? then 1
    else if x.value > y.value then 1
    else if x.value < y.value then -1
    else 0
  }

  /** The comparer is antisymmetric and transitive, as List.Sort requires. */
  lemma CompareIsConsistent(x: Option<int>, y: Option<int>, z: Option<int>)
    ensures CompareSectionsOrder(x, y) == -CompareSectionsOrder(y, x)
    ensures CompareSectionsOrder(x, y) <= 0 && CompareSectionsOrder(y, z) <= 0 ==> CompareSectionsOrder(x, z) <= 0
  {
  }

  // ---------------------------------------------------------------------------
  // Renumbering (the loop of UpdateSectionsOrder after the sort)

  /** A section the renumbering pass writes: non-zero and not mixed. */
  predicate Renumberable(p: FloatProperty) {
    p.value != 0 && !p.mixed
  }

  function CountRenumberable(ss: seq<SectionState>): (n: nat)
    ensures n <= |ss|
  {
    if ss == [] then 0
    else CountRenumberable(ss[..|ss| - 1]) + (if Renumberable(ss[|ss| - 1].activation) then 1 else 0)
  }

  /** The activation values of the renumberable sections, in list order. */
  function RenumberableOrdinals(ss: seq<SectionState>): (r: seq<int>)
    ensures |r| == CountRenumberable(ss)
  {
    if ss == [] then []
    else
      var last := ss[|ss| - 1];
      RenumberableOrdinals(ss[..|ss| - 1]) + (if Renumberable(last.activation) then [last.activation.value] else [])
  }

  /** 1, 2, ..., m */
  function OneTo(m: nat): (r: seq<int>)
    ensures |r| == m && forall k :: 0 <= k < m ==> r[k] == k + 1
  {
    seq(m, k => k + 1)
  }

  function RenumberedAt(ss: seq<SectionState>, k: nat): SectionState
    requires k < |ss|
  {
    if Renumberable(ss[k].activation)
    then ss[k].(activation := WithValue(ss[k].activation, 1 + CountRenumberable(ss[..k])))
    else ss[k]
  }

  /** The renumbering pass: a counter starting at 1 is written to every
      renumberable section in list order and incremented after each. */
  function Renumbered(ss: seq<SectionState>): (r: seq<SectionState>)
    ensures |r| == |ss|
    ensures forall k :: 0 <= k < |ss| && !Renumberable(ss[k].activation) ==> r[k] == ss[k]
    ensures forall k :: 0 <= k < |ss| && Renumberable(ss[k].activation) ==>
              Renumberable(r[k].activation) && r[k].(activation := ss[k].activation) == ss[k]
  {
    seq(|ss|, k requires 0 <= k < |ss| => RenumberedAt(ss, k))
  }

  lemma {:induction false} RenumberedPrefix(ss: seq<SectionState>, n: nat)
    requires n <= |ss|
    ensures Renumbered(ss)[..n] == Renumbered(ss[..n])
  {
    forall k | 0 <= k < n
      ensures Renumbered(ss)[..n][k] == Renumbered(ss[..n])[k]
    {
      assert ss[..n][..k] == ss[..k];
    }
  }

  lemma {:induction false} RenumberingKeepsCount(ss: seq<SectionState>)
    ensures CountRenumberable(Renumbered(ss)) == CountRenumberable(ss)
    decreases |ss|
  {
    if ss != [] {
      var n := |ss| - 1;
      RenumberedPrefix(ss, n);
      RenumberingKeepsCount(ss[..n]);
    }
  }

  /** After renumbering, the renumberable sections hold exactly 1..M in list
      order, M being how many there are. */
  lemma {:induction false} RenumberedHoldsOneToM(ss: seq<SectionState>)
    ensures RenumberableOrdinals(Renumbered(ss)) == OneTo(CountRenumberable(ss))
    decreases |ss|
  {
    if ss != [] {
      var n := |ss| - 1;
      var m := CountRenumberable(ss[..n]);
      RenumberedHoldsOneToM(ss[..n]);
      RenumberedLast(ss, Renumbered(ss), Renumbered(ss[..n]));
      if Renumberable(ss[n].activation) {
        assert OneTo(m + 1) == OneTo(m) + [1 + m];
      }
    }
  }

  /** The renumbered ordinals of a list (`r`) are those of the list without
      its last section (`init`), followed by the last section's new number if
      it has one. */
  lemma RenumberedLast(ss: seq<SectionState>, r: seq<SectionState>, init: seq<SectionState>)
    requires ss != [] && r == Renumbered(ss) && init == Renumbered(ss[..|ss| - 1])
    ensures RenumberableOrdinals(r)
            == RenumberableOrdinals(init)
               + (if Renumberable(ss[|ss| - 1].activation) then [1 + CountRenumberable(ss[..|ss| - 1])] else [])
  {
    RenumberedPrefix(ss, |ss| - 1);
    OrdinalsLast(r, init, RenumberedAt(ss, |ss| - 1));
  }

  /** Unfolding RenumberableOrdinals once, at a list split as `init + [last]`. */
  lemma OrdinalsLast(r: seq<SectionState>, init: seq<SectionState>, last: SectionState)
    requires r != [] && r[..|r| - 1] == init && r[|r| - 1] == last
    ensures RenumberableOrdinals(r)
            == RenumberableOrdinals(init) + (if Renumberable(last.activation) then [last.activation.value] else [])
  {
  }

  /** Renumbering a renumbered list changes nothing. */
  lemma {:induction false} RenumberingIsIdempotent(ss: seq<SectionState>)
    ensures Renumbered(Renumbered(ss)) == Renumbered(ss)
  {
    var r := Renumbered(ss);
    forall k | 0 <= k < |ss|
      ensures Renumbered(r)[k] == r[k]
    {
      if Renumberable(ss[k].activation) {
        RenumberedPrefix(ss, k);
        RenumberingKeepsCount(ss[..k]);
        assert r[..k] == Renumbered(ss[..k]);
      }
    }
  }

  // ---------------------------------------------------------------------------
  // Sorting

  ghost predicate Sorted(vs: seq<int>) {
    forall i, j :: 0 <= i < j < |vs| ==> vs[i] <= vs[j]
  }

  ghost predicate SortedByOrdinal(ss: seq<SectionState>) {
    Sorted(Ordinals(ss))
  }

  /** What `Controls.Sort(CompareSectionsOrder)` promises: some rearrangement of
      the list in ascending activation value. The sort is not stable, so the
      order of equal values is left open. */
  ghost predicate SortedPermutation(pre: seq<SectionState>, mid: seq<SectionState>) {
    multiset(mid) == multiset(pre) && SortedByOrdinal(mid)
  }

  /** UpdateSectionsOrder: sort, then renumber. */
  ghost predicate Reordered(pre: seq<SectionState>, post: seq<SectionState>) {
    exists mid :: SortedPermutation(pre, mid) && post == Renumbered(mid)
  }

  /** After UpdateSectionsOrder the renumberable sections hold 1..M in list
      order, and there are as many of them as before. */
  lemma ReorderedHoldsOneToM(pre: seq<SectionState>, post: seq<SectionState>)
    requires Reordered(pre, post)
    ensures RenumberableOrdinals(post) == OneTo(CountRenumberable(post))
    ensures |post| == |pre|
  {
    var mid :| SortedPermutation(pre, mid) && post == Renumbered(mid);
    RenumberedHoldsOneToM(mid);
    RenumberingKeepsCount(mid);
    assert |multiset(mid)| == |multiset(pre)|;
  }

  lemma RemovingOneElement<T>(b: seq<T>, k: nat)
    requires k < |b|
    ensures multiset(b[..k] + b[k + 1..]) == multiset(b) - multiset{b[k]}
  {
    assert b == b[..k] + [b[k]] + b[k + 1..];
  }

  /** Taking the same element out of two arrangements of one multiset leaves
      two arrangements of one multiset, and conversely. */
  lemma MatchingElements<T>(a: seq<T>, b: seq<T>, k: nat)
    requires |a| > 0 && k < |b| && b[k] == a[0]
    ensures multiset(a) == multiset(b) <==> multiset(a[1..]) == multiset(b[..k] + b[k + 1..])
  {
    var rest := b[..k] + b[k + 1..];
    assert a == [a[0]] + a[1..];
    assert multiset(a) == multiset{a[0]} + multiset(a[1..]);
    assert b == b[..k] + [b[k]] + b[k + 1..];
    assert multiset(b) == multiset{b[k]} + multiset(rest);
    if multiset(a) == multiset(b) {
      assert multiset(a[1..]) == multiset(a) - multiset{a[0]};
      assert multiset(rest) == multiset(b) - multiset{b[k]};
    }
  }

  lemma OrdinalsWithoutOne(b: seq<SectionState>, k: nat)
    requires k < |b|
    ensures Ordinals(b[..k] + b[k + 1..]) == Ordinals(b)[..k] + Ordinals(b)[k + 1..]
  {
  }

  /** Rearranging the sections rearranges their activation values. */
  lemma {:induction false} OrdinalsFollowPermutation(a: seq<SectionState>, b: seq<SectionState>)
    requires multiset(a) == multiset(b)
    ensures multiset(Ordinals(a)) == multiset(Ordinals(b))
    decreases |a|
  {
    if a == [] {
      assert |b| == |multiset(b)| == 0;
    } else {
      assert a[0] in multiset(b);
      var k :| 0 <= k < |b| && b[k] == a[0];
      MatchingElements(a, b, k);
      OrdinalsFollowPermutation(a[1..], b[..k] + b[k + 1..]);
      OrdinalsWithoutOne(b, k);
      assert Ordinals(a)[1..] == Ordinals(a[1..]);
      MatchingElements(Ordinals(a), Ordinals(b), k);
    }
  }

  lemma SameTails<T>(a: seq<T>, b: seq<T>)
    requires multiset(a) == multiset(b) && |a| > 0 && |b| > 0 && a[0] == b[0]
    ensures multiset(a[1..]) == multiset(b[1..])
  {
    assert a == [a[0]] + a[1..];
    assert b == [b[0]] + b[1..];
    assert multiset(a[1..]) == multiset(a) - multiset{a[0]};
    assert multiset(b[1..]) == multiset(b) - multiset{b[0]};
  }

  /** Two ascending arrangements of the same values are the same sequence. */
  lemma {:induction false} SortedArrangementIsUnique(a: seq<int>, b: seq<int>)
    requires Sorted(a) && Sorted(b) && multiset(a) == multiset(b)
    ensures a == b
    decreases |a|
  {
    if a == [] {
      assert |b| == |multiset(b)| == 0;
    } else {
      SortedHeadsAgree(a, b);
      SameTails(a, b);
      SortedTail(a);
      SortedTail(b);
      SortedArrangementIsUnique(a[1..], b[1..]);
      assert a == [a[0]] + a[1..] && b == [b[0]] + b[1..];
    }
  }

  /** The least value comes first in both arrangements. */
  lemma SortedHeadsAgree(a: seq<int>, b: seq<int>)
    requires Sorted(a) && Sorted(b) && multiset(a) == multiset(b) && a != []
    ensures b != [] && a[0] == b[0]
  {
    assert |b| == |multiset(b)| == |multiset(a)| == |a|;
    assert a[0] in multiset(b) && b[0] in multiset(a);
    var i :| 0 <= i < |b| && b[i] == a[0];
    var j :| 0 <= j < |a| && a[j] == b[0];
    assert i == 0 || b[0] <= b[i];
    assert j == 0 || a[0] <= a[j];
  }

  lemma SortedTail(a: seq<int>)
    requires Sorted(a) && a != []
    ensures Sorted(a[1..])
  {
  }

  // ---------------------------------------------------------------------------
  // The enabled sections numbered 1..K, after the disabled ones

  /** z sections holding 0 come first, and the others hold 1, 2, ... in order. */
  ghost predicate Contiguous(vs: seq<int>, z: nat) {
    z <= |vs| && forall k :: 0 <= k < |vs| ==> vs[k] == if k < z then 0 else k - z + 1
  }

  /** Every section's activation property agrees with its materials and none is mixed. */
  ghost predicate Uniform(ss: seq<SectionState>) {
    forall s :: s in ss ==> Coherent(s.activation) && !s.activation.mixed
  }

  lemma {:induction false} CountOfContiguousPrefix(ss: seq<SectionState>, z: nat, n: nat)
    requires Uniform(ss) && Contiguous(Ordinals(ss), z) && n <= |ss|
    ensures CountRenumberable(ss[..n]) == if n <= z then 0 else n - z
    decreases n
  {
    if n > 0 {
      assert ss[..n][..n - 1] == ss[..n - 1];
      assert ss[n - 1] in ss;
      CountOfContiguousPrefix(ss, z, n - 1);
    }
  }

  /** Renumbering a list that already holds 0..0, 1..K changes nothing. */
  lemma {:induction false} RenumberingFixesContiguous(ss: seq<SectionState>, z: nat)
    requires Uniform(ss) && Contiguous(Ordinals(ss), z)
    ensures Renumbered(ss) == ss
  {
    forall k | 0 <= k < |ss|
      ensures Renumbered(ss)[k] == ss[k]
    {
      assert ss[k] in ss;
      if k >= z {
        CountOfContiguousPrefix(ss, z, k);
        RewriteSameValue(ss[k].activation);
      }
    }
  }

  // ---------------------------------------------------------------------------
  // The frame loop of OrderedSectionGroup.ControlGUI

  /** `floatValue++` / `floatValue--` on a section's activation property. */
  function Bumped(s: SectionState, delta: int): SectionState {
    s.(activation := WithValue(s.activation, s.activation.value + delta))
  }

  /** A push down on section i, as the source guards it: i is not the last index. */
  predicate PushDownAsWritten(d: seq<SectionState>, i: nat)
    requires i < |d|
  {
    d[i].pushState == 1 && i < |d| - 1
  }

  /** A push down on section i that has an enabled section below it. */
  predicate PushDownApplies(d: seq<SectionState>, i: nat)
    requires i < |d|
  {
    d[i].pushState == 1 && i < |d| - 1 && d[i + 1].enabled
  }

  /** A push up on section i that has an enabled section above it. */
  predicate PushUpApplies(d: seq<SectionState>, i: nat)
    requires i < |d|
  {
    d[i].pushState == -1 && 0 < i && d[i - 1].enabled
  }

  /** Section i takes one unit of ordinal from (delta = 1) or gives one to
      (delta = -1) its neighbour j, and its push request is consumed. */
  function Exchanged(d: seq<SectionState>, i: nat, j: nat, delta: int): (r: seq<SectionState>)
    requires i < |d| && j < |d| && i != j
    ensures |r| == |d|
    ensures Ordinals(r) == Ordinals(d)[i := d[i].activation.value + delta][j := d[j].activation.value - delta]
    ensures forall k :: 0 <= k < |d| && k != i && k != j ==> r[k] == d[k]
    ensures r[i].(activation := d[i].activation, pushState := d[i].pushState) == d[i] && r[i].pushState == 0
    ensures r[j].(activation := d[j].activation) == d[j]
  {
    d[i := Bumped(d[i], delta).(pushState := 0)][j := Bumped(d[j], -delta)]
  }

  /** Every section other than i keeps all but its activation in an exchange. */
  lemma ExchangedFrame(d: seq<SectionState>, i: nat, j: nat, delta: int)
    requires i < |d| && j < |d| && i != j
    ensures forall k :: 0 <= k < |d| && k != i ==> Exchanged(d, i, j, delta)[k].(activation := d[k].activation) == d[k]
  {
  }

  /** Section i's push request is consumed and nothing else changes. */
  function Consumed(d: seq<SectionState>, i: nat): (r: seq<SectionState>)
    requires i < |d|
    ensures |r| == |d| && Ordinals(r) == Ordinals(d)
    ensures forall k :: 0 <= k < |d| && k != i ==> r[k] == d[k]
    ensures r[i] == d[i].(pushState := 0)
  {
    var r := d[i := d[i].(pushState := 0)];
    assert Ordinals(r) == Ordinals(d);
    r
  }

  /** The push handling of the frame loop for section i, with the neighbour
      check a push down needs (the same check a push up makes): the section
      exchanges one unit of ordinal with its enabled neighbour; otherwise no
      ordinal changes. The request is consumed either way, and no disabled
      section other than i is written. */
  function ApplyPush(d: seq<SectionState>, i: nat): (r: seq<SectionState>)
    requires i < |d|
    ensures |r| == |d| && r[i].pushState == 0
    ensures PushDownApplies(d, i) ==>
              Ordinals(r) == Ordinals(d)[i := d[i].activation.value + 1][i + 1 := d[i + 1].activation.value - 1]
    ensures PushUpApplies(d, i) ==>
              Ordinals(r) == Ordinals(d)[i := d[i].activation.value - 1][i - 1 := d[i - 1].activation.value + 1]
    ensures !PushDownApplies(d, i) && !PushUpApplies(d, i) ==> Ordinals(r) == Ordinals(d)
    ensures forall k :: 0 <= k < |d| && k != i ==> r[k].(activation := d[k].activation) == d[k]
    ensures forall k :: 0 <= k < |d| && k != i && !d[k].enabled ==> r[k] == d[k]
    ensures r[i].(activation := d[i].activation, pushState := d[i].pushState) == d[i]
  {
    if PushDownApplies(d, i) then ExchangedFrame(d, i, i + 1, 1); Exchanged(d, i, i + 1, 1)
    else if PushUpApplies(d, i) then ExchangedFrame(d, i, i - 1, -1); Exchanged(d, i, i - 1, -1)
    else Consumed(d, i)
  }

  /** The push handling of the frame loop for section i, as the source writes
      it: a push down does not look at the section below, which is written
      even when it is disabled; a push up exchanges only with an enabled
      section above. The request is consumed either way. */
  function ApplyPushAsWritten(d: seq<SectionState>, i: nat): (r: seq<SectionState>)
    requires i < |d|
    ensures |r| == |d| && r[i].pushState == 0
    ensures PushDownAsWritten(d, i) ==>
              Ordinals(r) == Ordinals(d)[i := d[i].activation.value + 1][i + 1 := d[i + 1].activation.value - 1]
    ensures PushUpApplies(d, i) ==>
              Ordinals(r) == Ordinals(d)[i := d[i].activation.value - 1][i - 1 := d[i - 1].activation.value + 1]
    ensures !PushDownAsWritten(d, i) && !PushUpApplies(d, i) ==> Ordinals(r) == Ordinals(d)
    ensures forall k :: 0 <= k < |d| && k != i ==> r[k].(activation := d[k].activation) == d[k]
    ensures forall k :: 0 <= k < |d| && k != i && k != i + 1 && !d[k].enabled ==> r[k] == d[k]
    ensures r[i].(activation := d[i].activation, pushState := d[i].pushState) == d[i]
  {
    if PushDownAsWritten(d, i) then ExchangedFrame(d, i, i + 1, 1); Exchanged(d, i, i + 1, 1)
    else if PushUpApplies(d, i) then ExchangedFrame(d, i, i - 1, -1); Exchanged(d, i, i - 1, -1)
    else Consumed(d, i)
  }

  /** A push down whose section below is disabled: the only case in which
      the code as written and the neighbour check part ways. */
  predicate DownOntoDisabled(d: seq<SectionState>, i: nat)
    requires i < |d|
  {
    PushDownAsWritten(d, i) && !d[i + 1].enabled
  }

  /** Outside DownOntoDisabled, the push handling as written is the checked one. */
  lemma ApplyPushAgrees(d: seq<SectionState>, i: nat)
    requires i < |d| && !DownOntoDisabled(d, i)
    ensures ApplyPushAsWritten(d, i) == ApplyPush(d, i)
  {
  }

  /** One iteration of the frame loop: a disabled section is skipped; an
      enabled one is drawn; a pending push is carried out, consumed, and makes
      the frame renumber even when nothing moved; otherwise a change of the
      activation property makes the frame refresh the "new sections" cache.
      Returns the new states, "needs order update" and "needs availability update". */
  function DrawStep(ss: seq<SectionState>, c: Clicks, i: nat): (r: (seq<SectionState>, bool, bool))
    requires i < |ss|
    ensures |r.0| == |ss|
    ensures !ss[i].enabled ==> r == (ss, false, false)
    ensures r.1 <==> ss[i].enabled && AfterControlGUI(ss[i], c).pushState != 0
    ensures r.1 ==> r.0[i].pushState == 0 && !r.2
    ensures forall k :: 0 <= k < |ss| && k != i && k != i - 1 && k != i + 1 ==> r.0[k] == ss[k]
    ensures forall k :: 0 <= k < |ss| && !ss[k].enabled ==> r.0[k].activation == ss[k].activation
  {
    if !ss[i].enabled then (ss, false, false)
    else
      var d := ss[i := AfterControlGUI(ss[i], c)];
      if d[i].pushState != 0 then (ApplyPush(d, i), true, false)
      else (d, false, d[i].activationUpdated)
  }

  /** The first n iterations of the frame loop, with clicks[k] what the user
      does to the section at index k when it is drawn. */
  function DrawLoop(ss: seq<SectionState>, clicks: seq<Clicks>, n: nat): (r: (seq<SectionState>, bool, bool))
    requires n <= |ss| == |clicks|
    ensures |r.0| == |ss|
    ensures forall k :: n < k < |ss| ==> r.0[k] == ss[k]
    decreases n
  {
    if n == 0 then (ss, false, false)
    else
      var prev := DrawLoop(ss, clicks, n - 1);
      var step := DrawStep(prev.0, clicks[n - 1], n - 1);
      (step.0, prev.1 || step.1, prev.2 || step.2)
  }

  /** The frame loop keeps every push state in {-1, 0, 1}. */
  lemma {:induction false} DrawLoopKeepsPushStates(ss: seq<SectionState>, clicks: seq<Clicks>, n: nat)
    requires n <= |ss| == |clicks|
    requires forall k :: 0 <= k < |ss| ==> ValidPushState(ss[k].pushState)
    ensures forall k :: 0 <= k < |ss| ==> ValidPushState(DrawLoop(ss, clicks, n).0[k].pushState)
    decreases n
  {
    if n > 0 {
      DrawLoopKeepsPushStates(ss, clicks, n - 1);
    }
  }

  /** One more iteration of the frame loop, after `prev`. */
  lemma DrawLoopNext(ss: seq<SectionState>, clicks: seq<Clicks>, n: nat, prev: (seq<SectionState>, bool, bool),
                     next: seq<SectionState>, order: bool, avail: bool)
    requires 0 < n <= |ss| == |clicks| && prev == DrawLoop(ss, clicks, n - 1)
    requires n - 1 < |prev.0| && (next, order, avail) == DrawStep(prev.0, clicks[n - 1], n - 1)
    ensures DrawLoop(ss, clicks, n) == (next, prev.1 || order, prev.2 || avail)
  {
  }

  /** An iteration of the frame loop in which section i asks for a push down
      and the section below it is disabled. */
  predicate StepPushesOntoDisabled(ss: seq<SectionState>, c: Clicks, i: nat)
    requires i < |ss|
  {
    ss[i].enabled && DownOntoDisabled(ss[i := AfterControlGUI(ss[i], c)], i)
  }

  /** DrawStep with the push handling as the source writes it: a push down
      onto a disabled section takes one unit from that section's ordinal. */
  function DrawStepAsWritten(ss: seq<SectionState>, c: Clicks, i: nat): (r: (seq<SectionState>, bool, bool))
    requires i < |ss|
    ensures |r.0| == |ss|
    ensures !ss[i].enabled ==> r == (ss, false, false)
    ensures r.1 <==> ss[i].enabled && AfterControlGUI(ss[i], c).pushState != 0
    ensures r.1 ==> r.0[i].pushState == 0 && !r.2
    ensures forall k :: 0 <= k < |ss| && k != i && k != i - 1 && k != i + 1 ==> r.0[k] == ss[k]
    ensures forall k :: 0 <= k < |ss| && k != i + 1 && !ss[k].enabled ==> r.0[k].activation == ss[k].activation
    ensures StepPushesOntoDisabled(ss, c, i) ==>
              && !r.0[i + 1].enabled
              && r.0[i + 1].activation.value == ss[i + 1].activation.value - 1
  {
    if !ss[i].enabled then (ss, false, false)
    else
      var d := ss[i := AfterControlGUI(ss[i], c)];
      if d[i].pushState != 0 then (ApplyPushAsWritten(d, i), true, false)
      else (d, false, d[i].activationUpdated)
  }

  /** Outside StepPushesOntoDisabled, an iteration as written is the checked one. */
  lemma DrawStepAgrees(ss: seq<SectionState>, c: Clicks, i: nat)
    requires i < |ss| && !StepPushesOntoDisabled(ss, c, i)
    ensures DrawStepAsWritten(ss, c, i) == DrawStep(ss, c, i)
  {
    if ss[i].enabled {
      ApplyPushAgrees(ss[i := AfterControlGUI(ss[i], c)], i);
    }
  }

  /** DrawLoop with the iterations as written. */
  function DrawLoopAsWritten(ss: seq<SectionState>, clicks: seq<Clicks>, n: nat): (r: (seq<SectionState>, bool, bool))
    requires n <= |ss| == |clicks|
    ensures |r.0| == |ss|
    ensures forall k :: n < k < |ss| ==> r.0[k] == ss[k]
    decreases n
  {
    if n == 0 then (ss, false, false)
    else
      var prev := DrawLoopAsWritten(ss, clicks, n - 1);
      var step := DrawStepAsWritten(prev.0, clicks[n - 1], n - 1);
      (step.0, prev.1 || step.1, prev.2 || step.2)
  }

  /** The loop as written and the checked loop give the same frame as long
      as no iteration pushes a section down onto a disabled one. */
  lemma {:induction false} DrawLoopAgrees(ss: seq<SectionState>, clicks: seq<Clicks>, n: nat)
    requires n <= |ss| == |clicks|
    requires forall k {:trigger DrawLoop(ss, clicks, k)} :: 0 <= k < n ==>
               !StepPushesOntoDisabled(DrawLoop(ss, clicks, k).0, clicks[k], k)
    ensures DrawLoopAsWritten(ss, clicks, n) == DrawLoop(ss, clicks, n)
    decreases n
  {
    if n > 0 {
      var prev := DrawLoop(ss, clicks, n - 1);
      DrawLoopAgrees(ss, clicks, n - 1);
      assert DrawLoopAsWritten(ss, clicks, n - 1) == prev;
      DrawStepAgrees(prev.0, clicks[n - 1], n - 1);
      var step := DrawStep(prev.0, clicks[n - 1], n - 1);
      DrawLoopNext(ss, clicks, n, prev, step.0, step.1, step.2);
    }
  }

  /** The PredrawUpdate pass over the whole list. */
  function PredrawAll(ss: seq<SectionState>): (r: seq<SectionState>)
    ensures |r| == |ss| && forall k :: 0 <= k < |ss| ==> r[k] == Predrawn(ss[k])
  {
    seq(|ss|, k requires 0 <= k < |ss| => Predrawn(ss[k]))
  }

  /** AreNewSectionsAvailable's answer: some section has some material on
      which its activation value is exactly 0. */
  ghost predicate AnyZeroTarget(ss: seq<SectionState>) {
    exists k :: 0 <= k < |ss| && HasZeroTarget(ss[k].activation)
  }

  // ---------------------------------------------------------------------------
  // What a frame guarantees

  /** A section with nothing pending: no push request, no toggle left on, no
      "turned on" notice, no activation change, and Enabled agrees with its
      ordinal (as PredrawUpdate leaves it). */
  ghost predicate Quiet(s: SectionState) {
    Idle(s) && (s.enabled <==> s.activation.value > 0)
  }

  /** Nothing pending on the section, whatever its ordinal. */
  ghost predicate Idle(s: SectionState) {
    s.pushState == 0 && !s.isUp && !s.isDown && !s.turnedOn && !s.activationUpdated
  }

  ghost predicate AllQuiet(ss: seq<SectionState>) {
    forall k :: 0 <= k < |ss| ==> Quiet(ss[k])
  }

  /** Iterations that draw idle sections without clicks change nothing:
      the loop stays at `base`, the result of its first m iterations. */
  lemma {:induction false} QuietIterations(ss: seq<SectionState>, clicks: seq<Clicks>,
                                           base: (seq<SectionState>, bool, bool), m: nat, n: nat)
    requires m <= n <= |ss| == |clicks| && base == DrawLoop(ss, clicks, m)
    requires forall k :: m <= k < n ==> clicks[k] == NoClicks && Idle(base.0[k])
    ensures DrawLoop(ss, clicks, n) == base
    decreases n
  {
    if n > m {
      QuietIterations(ss, clicks, base, m, n - 1);
      assert Idle(base.0[n - 1]);
      QuietStep(ss, clicks, base, n);
    }
  }

  /** One iteration over an idle, unclicked section changes nothing. */
  lemma QuietStep(ss: seq<SectionState>, clicks: seq<Clicks>, prev: (seq<SectionState>, bool, bool), n: nat)
    requires 0 < n <= |ss| == |clicks| && prev == DrawLoop(ss, clicks, n - 1)
    requires clicks[n - 1] == NoClicks && n - 1 < |prev.0| && Idle(prev.0[n - 1])
    ensures DrawLoop(ss, clicks, n) == prev
  {
    IdleStepIsNoOp(prev.0, n - 1);
  }

  /** Drawing an idle section without clicks changes nothing. */
  lemma IdleStepIsNoOp(ss: seq<SectionState>, i: nat)
    requires i < |ss| && Idle(ss[i])
    ensures DrawStep(ss, NoClicks, i) == (ss, false, false)
  {
    if ss[i].enabled {
      assert AfterControlGUI(ss[i], NoClicks) == ss[i];
      assert ss[i := ss[i]] == ss;
    }
  }

  lemma ContiguousIsSorted(vs: seq<int>, z: nat)
    requires Contiguous(vs, z)
    ensures Sorted(vs)
  {
  }

  lemma NeighbourSwapKeepsMultiset(v: seq<int>, j: nat)
    requires j + 1 < |v|
    ensures multiset(v[j := v[j + 1]][j + 1 := v[j]]) == multiset(v)
  {
  }

  lemma PermutationKeepsMembers<T>(a: seq<T>, b: seq<T>)
    requires multiset(a) == multiset(b)
    ensures |a| == |b|
    ensures forall x :: x in a ==> x in b
  {
    assert |multiset(a)| == |multiset(b)|;
    forall x | x in a
      ensures x in b
    {
      assert x in multiset(a);
    }
  }

  lemma {:induction false} UniformFollowsPermutation(d: seq<SectionState>, mid: seq<SectionState>)
    requires multiset(d) == multiset(mid) && Uniform(d)
    ensures Uniform(mid) && |mid| == |d|
  {
    PermutationKeepsMembers(mid, d);
  }

  // ---------------------------------------------------------------------------
  // Settled lists: as a renumbering leaves them

  /** z zeros followed by 1..m: what the ordinals of a settled list sort into. */
  function Layout(z: nat, m: nat): (r: seq<int>)
    ensures |r| == z + m
  {
    seq(z + m, k => if k < z then 0 else k - z + 1)
  }

  lemma LayoutIsContiguous(z: nat, m: nat)
    ensures Contiguous(Layout(z, m), z)
  {
  }

  /** A list as a renumbering leaves it: nothing is mixed, and the
      renumberable sections hold 1..K in list order. Every other section
      holds 0, wherever it stands. */
  ghost predicate Settled(ss: seq<SectionState>) {
    Uniform(ss) && RenumberableOrdinals(ss) == OneTo(CountRenumberable(ss))
  }

  /** A renumbered list is settled when nothing in it is mixed. */
  lemma RenumberedIsSettled(ss: seq<SectionState>)
    requires Uniform(ss) && Renumbered(ss) == ss
    ensures Settled(ss)
  {
    RenumberedHoldsOneToM(ss);
    RenumberingKeepsCount(ss);
  }

  /** The renumberable section at k is entry Count(ss[..k]) of RenumberableOrdinals. */
  lemma {:induction false} RenumberableAt(ss: seq<SectionState>, k: nat)
    requires k < |ss| && Renumberable(ss[k].activation)
    ensures CountRenumberable(ss[..k]) < CountRenumberable(ss)
    ensures RenumberableOrdinals(ss)[CountRenumberable(ss[..k])] == ss[k].activation.value
    decreases |ss|
  {
    var n := |ss| - 1;
    if k < n {
      RenumberableAt(ss[..n], k);
      assert ss[..n][..k] == ss[..k];
    }
  }

  /** The list without its last section is settled too, and the last
      section, if renumberable, holds one more than the others' count. */
  lemma SettledPrefix(ss: seq<SectionState>)
    requires Settled(ss) && ss != []
    ensures Settled(ss[..|ss| - 1])
    ensures Renumberable(ss[|ss| - 1].activation) ==>
              ss[|ss| - 1].activation.value == 1 + CountRenumberable(ss[..|ss| - 1])
  {
    var n := |ss| - 1;
    var m := CountRenumberable(ss[..n]);
    var r := RenumberableOrdinals(ss);
    UniformPrefix(ss, n);
    assert r == RenumberableOrdinals(ss[..n])
                + (if Renumberable(ss[n].activation) then [ss[n].activation.value] else []);
    assert r[..m] == RenumberableOrdinals(ss[..n]);
    assert OneTo(CountRenumberable(ss))[..m] == OneTo(m);
    if Renumberable(ss[n].activation) {
      assert r[m] == ss[n].activation.value;
    }
  }

  /** In a settled list, a renumberable section holds one more than the
      number of renumberable sections before it. */
  lemma SettledValue(ss: seq<SectionState>, k: nat)
    requires Settled(ss) && k < |ss| && Renumberable(ss[k].activation)
    ensures ss[k].activation.value == 1 + CountRenumberable(ss[..k])
    ensures ss[k].activation.value <= CountRenumberable(ss)
  {
    RenumberableAt(ss, k);
  }

  lemma CountStep(ss: seq<SectionState>, k: nat)
    requires k < |ss|
    ensures CountRenumberable(ss[..k + 1])
            == CountRenumberable(ss[..k]) + (if Renumberable(ss[k].activation) then 1 else 0)
  {
    assert ss[..k + 1][..k] == ss[..k];
  }

  lemma {:induction false} CountMonotone(ss: seq<SectionState>, a: nat, b: nat)
    requires a <= b <= |ss|
    ensures CountRenumberable(ss[..a]) <= CountRenumberable(ss[..b])
    decreases b - a
  {
    if a < b {
      CountStep(ss, a);
      CountMonotone(ss, a + 1, b);
    }
  }

  /** In a settled list the renumberable sections hold increasing ordinals. */
  lemma SettledValuesIncrease(ss: seq<SectionState>, a: nat, b: nat)
    requires Settled(ss) && a < b < |ss|
    requires Renumberable(ss[a].activation) && Renumberable(ss[b].activation)
    ensures ss[a].activation.value < ss[b].activation.value
  {
    SettledValue(ss, a);
    SettledValue(ss, b);
    CountStep(ss, a);
    CountMonotone(ss, a + 1, b);
  }

  /** Two neighbouring renumberable sections of a settled list hold v and
      v + 1, and v + 1 is at most the number of renumberable sections. */
  lemma SettledNeighbours(ss: seq<SectionState>, j: nat)
    requires Settled(ss) && j + 1 < |ss|
    requires Renumberable(ss[j].activation) && Renumberable(ss[j + 1].activation)
    ensures 0 < ss[j].activation.value && ss[j + 1].activation.value == ss[j].activation.value + 1
    ensures ss[j + 1].activation.value <= CountRenumberable(ss)
  {
    SettledValue(ss, j);
    SettledValue(ss, j + 1);
    CountStep(ss, j);
  }

  /** The ordinals of a settled list are z zeros and 1..m, in some order
      (the zeros need not come first). */
  lemma {:induction false} SettledMultiset(ss: seq<SectionState>, z: nat, m: nat)
    requires Settled(ss) && m == CountRenumberable(ss) && z == |ss| - m
    ensures multiset(Ordinals(ss)) == multiset(Layout(z, m))
    decreases |ss|
  {
    if ss != [] {
      var init := ss[..|ss| - 1];
      var m' := CountRenumberable(init);
      SettledPrefix(ss);
      SettledMultiset(init, |init| - m', m');
      assert ss[|ss| - 1] in ss;
      SettledMultisetStep(ss, init, z, m, |init| - m', m');
    }
  }

  /** The step of SettledMultiset: the last section adds a zero or m' + 1. */
  lemma SettledMultisetStep(ss: seq<SectionState>, init: seq<SectionState>, z: nat, m: nat, z': nat, m': nat)
    requires ss != [] && init == ss[..|ss| - 1] && !ss[|ss| - 1].activation.mixed
    requires m == CountRenumberable(ss) && z == |ss| - m
    requires m' == CountRenumberable(init) && z' == |init| - m'
    requires Renumberable(ss[|ss| - 1].activation) ==> ss[|ss| - 1].activation.value == 1 + m'
    requires multiset(Ordinals(init)) == multiset(Layout(z', m'))
    ensures multiset(Ordinals(ss)) == multiset(Layout(z, m))
  {
    var n := |ss| - 1;
    var w := ss[n].activation.value;
    CountLast(ss, m');
    SettledLast(ss, init, z', m', w);
    if Renumberable(ss[n].activation) {
      assert w == m' + 1 && z == z' && m == m' + 1;
    } else {
      assert w == 0 && z == z' + 1 && m == m';
    }
  }

  lemma UniformPrefix(ss: seq<SectionState>, n: nat)
    requires Uniform(ss) && n <= |ss|
    ensures Uniform(ss[..n])
  {
    forall s | s in ss[..n]
      ensures s in ss
    {
    }
  }

  /** How the last section of a settled list changes the counts. */
  lemma CountLast(ss: seq<SectionState>, m: nat)
    requires ss != [] && m == CountRenumberable(ss[..|ss| - 1]) && !ss[|ss| - 1].activation.mixed
    ensures Renumberable(ss[|ss| - 1].activation) ==>
              CountRenumberable(ss) == m + 1 && |ss| - CountRenumberable(ss) == |ss| - 1 - m
    ensures !Renumberable(ss[|ss| - 1].activation) ==>
              CountRenumberable(ss) == m && |ss| - CountRenumberable(ss) == |ss| - 1 - m + 1
              && ss[|ss| - 1].activation.value == 0
  {
  }

  /** The step of SettledMultiset: the last section adds a zero or the next number. */
  lemma SettledLast(ss: seq<SectionState>, init: seq<SectionState>, z: nat, m: nat, w: int)
    requires ss != [] && init == ss[..|ss| - 1] && w == ss[|ss| - 1].activation.value
    requires multiset(Ordinals(init)) == multiset(Layout(z, m))
    ensures w == 0 ==> multiset(Ordinals(ss)) == multiset(Layout(z + 1, m))
    ensures w == m + 1 ==> multiset(Ordinals(ss)) == multiset(Layout(z, m + 1))
  {
    OrdinalsSnoc(ss, init);
    if w == 0 {
      LayoutGrowsByZero(z, m);
    } else if w == m + 1 {
      LayoutGrowsByValue(z, m);
    }
  }

  lemma OrdinalsSnoc(ss: seq<SectionState>, init: seq<SectionState>)
    requires ss != [] && init == ss[..|ss| - 1]
    ensures multiset(Ordinals(ss)) == multiset(Ordinals(init)) + multiset{ss[|ss| - 1].activation.value}
  {
    assert Ordinals(ss) == Ordinals(init) + [ss[|ss| - 1].activation.value];
  }

  lemma LayoutGrowsByValue(z: nat, m: nat)
    ensures multiset(Layout(z, m + 1)) == multiset(Layout(z, m)) + multiset{m + 1}
  {
    assert Layout(z, m + 1) == Layout(z, m) + [m + 1];
  }

  lemma LayoutGrowsByZero(z: nat, m: nat)
    ensures multiset(Layout(z + 1, m)) == multiset(Layout(z, m)) + multiset{0}
  {
    assert Layout(z + 1, m) == [0] + Layout(z, m);
  }

  /** Neighbours j and j+1 of a settled list with nothing mixed, both
      renumberable, have exchanged their ordinals (v and v + 1): every
      ascending sort puts the z zeros first and 1..M after them, the two
      sections change places at z + v - 1 and z + v, and renumbering changes
      nothing. */
  lemma {:induction false} SortUndoesExchange(ss: seq<SectionState>, d: seq<SectionState>, mid: seq<SectionState>,
                                              j: nat, z: nat, v: int)
    requires Settled(ss) && j + 1 < |ss|
    requires Renumberable(ss[j].activation) && Renumberable(ss[j + 1].activation)
    requires |d| == |ss| && Uniform(d)
    requires Ordinals(d) == Ordinals(ss)[j := ss[j + 1].activation.value][j + 1 := ss[j].activation.value]
    requires SortedPermutation(d, mid)
    requires z == |ss| - CountRenumberable(ss) && v == ss[j].activation.value
    ensures Contiguous(Ordinals(mid), z) && Renumbered(mid) == mid
    ensures 0 < v && z + v < |mid| && mid[z + v - 1] == d[j + 1] && mid[z + v] == d[j]
  {
    var m := CountRenumberable(ss);
    SortSettles(ss, d, mid, j, z, m);
    SortPlacesExchanged(ss, d, mid, j, z, v, m);
  }

  /** The ordinal half of SortUndoesExchange. */
  lemma SortSettles(ss: seq<SectionState>, d: seq<SectionState>, mid: seq<SectionState>, j: nat, z: nat, m: nat)
    requires Settled(ss) && j + 1 < |ss|
    requires |d| == |ss| && Uniform(d)
    requires Ordinals(d) == Ordinals(ss)[j := ss[j + 1].activation.value][j + 1 := ss[j].activation.value]
    requires SortedPermutation(d, mid)
    requires m == CountRenumberable(ss) && z == |ss| - m
    ensures Ordinals(mid) == Layout(z, m) && Renumbered(mid) == mid
  {
    SettledMultiset(ss, z, m);
    SortedOrdinalsMultiset(ss, d, mid, j, z, m);
    LayoutIsUnique(Ordinals(mid), z, m);
    UniformFollowsPermutation(d, mid);
    LayoutIsContiguous(z, m);
    RenumberingFixesContiguous(mid, z);
  }

  lemma SortedOrdinalsMultiset(ss: seq<SectionState>, d: seq<SectionState>, mid: seq<SectionState>,
                               j: nat, z: nat, m: nat)
    requires j + 1 < |ss| && |d| == |ss| && multiset(Ordinals(ss)) == multiset(Layout(z, m))
    requires Ordinals(d) == Ordinals(ss)[j := ss[j + 1].activation.value][j + 1 := ss[j].activation.value]
    requires multiset(mid) == multiset(d)
    ensures multiset(Ordinals(mid)) == multiset(Layout(z, m))
  {
    NeighbourSwapKeepsMultiset(Ordinals(ss), j);
    OrdinalsFollowPermutation(mid, d);
  }

  /** Zeros then 1..m is the only ascending arrangement of its values. */
  lemma LayoutIsUnique(o: seq<int>, z: nat, m: nat)
    requires Sorted(o) && multiset(o) == multiset(Layout(z, m))
    ensures o == Layout(z, m)
  {
    LayoutIsContiguous(z, m);
    ContiguousIsSorted(Layout(z, m), z);
    SortedArrangementIsUnique(o, Layout(z, m));
  }

  /** The placement half of SortUndoesExchange. */
  lemma SortPlacesExchanged(ss: seq<SectionState>, d: seq<SectionState>, mid: seq<SectionState>,
                            j: nat, z: nat, v: int, m: nat)
    requires Settled(ss) && j + 1 < |ss| && |d| == |ss|
    requires Renumberable(ss[j].activation) && Renumberable(ss[j + 1].activation)
    requires Ordinals(d) == Ordinals(ss)[j := ss[j + 1].activation.value][j + 1 := ss[j].activation.value]
    requires m == CountRenumberable(ss) && z == |ss| - m && v == ss[j].activation.value
    requires multiset(mid) == multiset(d) && Ordinals(mid) == Layout(z, m)
    ensures 0 < v && z + v < |mid| && mid[z + v - 1] == d[j + 1] && mid[z + v] == d[j]
  {
    SettledNeighbours(ss, j);
    assert mid[z + v - 1].activation.value == v by {
      assert Ordinals(mid)[z + v - 1] == Layout(z, m)[z + v - 1];
    }
    assert mid[z + v].activation.value == v + 1 by {
      assert Ordinals(mid)[z + v] == Layout(z, m)[z + v];
    }
    ValueComesFrom(ss, d, mid, j, z + v - 1);
    ValueComesFrom(ss, d, mid, j, z + v);
  }

  /** The section at k of a rearrangement of the exchanged list that holds
      v came from j+1, one that holds v + 1 from j. */
  lemma ValueComesFrom(ss: seq<SectionState>, d: seq<SectionState>, mid: seq<SectionState>, j: nat, k: nat)
    requires Settled(ss) && j + 1 < |ss| && |d| == |ss|
    requires Renumberable(ss[j].activation) && Renumberable(ss[j + 1].activation)
    requires Ordinals(d) == Ordinals(ss)[j := ss[j + 1].activation.value][j + 1 := ss[j].activation.value]
    requires multiset(mid) == multiset(d) && k < |mid|
    ensures mid[k].activation.value == ss[j].activation.value ==> mid[k] == d[j + 1]
    ensures mid[k].activation.value == ss[j + 1].activation.value ==> mid[k] == d[j]
  {
    PermutationKeepsMembers(mid, d);
    assert mid[k] in mid;
    var a :| 0 <= a < |d| && d[a] == mid[k];
    ExchangedValuesArePlaced(ss, d, j, a);
  }

  /** After the exchange, v sits only at j+1 and v + 1 only at j. */
  lemma ExchangedValuesArePlaced(ss: seq<SectionState>, d: seq<SectionState>, j: nat, a: nat)
    requires Settled(ss) && j + 1 < |ss| && a < |ss| == |d|
    requires Renumberable(ss[j].activation) && Renumberable(ss[j + 1].activation)
    requires Ordinals(d) == Ordinals(ss)[j := ss[j + 1].activation.value][j + 1 := ss[j].activation.value]
    ensures d[a].activation.value == ss[j].activation.value ==> a == j + 1
    ensures d[a].activation.value == ss[j + 1].activation.value ==> a == j
  {
    SettledNeighbours(ss, j);
    assert Ordinals(d)[a] == d[a].activation.value;
    if a != j && a != j + 1 {
      assert ss[a] in ss;
      if ss[a].activation.value != 0 {
        if a < j {
          SettledValuesIncrease(ss, a, j);
        } else {
          SettledValuesIncrease(ss, j + 1, a);
        }
      }
    }
  }

  /** One frame in which the user clicks only section i, with c. */
  function ClickOnly(n: nat, i: nat, c: Clicks): (r: seq<Clicks>)
    ensures |r| == n
    ensures forall k :: 0 <= k < n ==> r[k] == (if k == i then c else NoClicks)
  {
    seq(n, k => if k == i then c else NoClicks)
  }

  const DownClick := Clicks(false, true, false)
  const UpClick := Clicks(true, false, false)

  /** The frame in which an enabled section i of a quiet list is pushed
      (down when delta = 1, up when delta = -1) towards its enabled
      neighbour j: exactly the exchange of one unit of ordinal, and a
      renumbering is requested. */
  lemma {:induction false} PushFrame(ss: seq<SectionState>, i: nat, j: nat, delta: int)
    requires AllQuiet(ss) && i < |ss| && j < |ss| && ss[i].enabled && ss[j].enabled
    requires (delta == 1 && j == i + 1) || (delta == -1 && j + 1 == i)
    ensures var clicks := ClickOnly(|ss|, i, if delta == 1 then DownClick else UpClick);
            DrawLoop(ss, clicks, |ss|) == (Exchanged(ss, i, j, delta), true, false)
  {
    var c := if delta == 1 then DownClick else UpClick;
    var clicks := ClickOnly(|ss|, i, c);
    var e := Exchanged(ss, i, j, delta);
    PushFrameUpTo(ss, clicks, i, j, delta, c, e);
    ExchangedIsIdle(ss, i, j, delta);
    QuietIterations(ss, clicks, (e, true, false), i + 1, |ss|);
  }

  /** The same frame, up to and including the iteration of the pushed section. */
  lemma PushFrameUpTo(ss: seq<SectionState>, clicks: seq<Clicks>, i: nat, j: nat, delta: int,
                      c: Clicks, e: seq<SectionState>)
    requires AllQuiet(ss) && i < |ss| && j < |ss| && ss[i].enabled && ss[j].enabled
    requires (delta == 1 && j == i + 1) || (delta == -1 && j + 1 == i)
    requires c == (if delta == 1 then DownClick else UpClick) && clicks == ClickOnly(|ss|, i, c)
    requires e == Exchanged(ss, i, j, delta)
    ensures DrawLoop(ss, clicks, i + 1) == (e, true, false)
  {
    QuietPrefix(ss, clicks, i, c);
    PushStep(ss, i, j, delta, c, e);
    LoopThroughStep(ss, clicks, i, c, e);
  }

  /** An idle prefix followed by one step that exchanges and asks for an
      order update. */
  lemma LoopThroughStep(ss: seq<SectionState>, clicks: seq<Clicks>, i: nat, c: Clicks, e: seq<SectionState>)
    requires i < |ss| == |clicks| && clicks[i] == c
    requires DrawLoop(ss, clicks, i) == (ss, false, false)
    requires DrawStep(ss, c, i) == (e, true, false)
    ensures DrawLoop(ss, clicks, i + 1) == (e, true, false)
  {
    DrawLoopNext(ss, clicks, i + 1, (ss, false, false), e, true, false);
  }

  /** Before the clicked section, the frame loop leaves a quiet list as it is. */
  lemma QuietPrefix(ss: seq<SectionState>, clicks: seq<Clicks>, i: nat, c: Clicks)
    requires AllQuiet(ss) && i < |ss| && clicks == ClickOnly(|ss|, i, c)
    ensures DrawLoop(ss, clicks, i) == (ss, false, false)
  {
    forall k | 0 <= k < i
      ensures clicks[k] == NoClicks && Idle(ss[k])
    {
      assert Quiet(ss[k]);
    }
    QuietIterations(ss, clicks, (ss, false, false), 0, i);
  }

  /** After an exchange in a quiet list, nothing is pending on any section. */
  lemma ExchangedIsIdle(ss: seq<SectionState>, i: nat, j: nat, delta: int)
    requires AllQuiet(ss) && i < |ss| && j < |ss| && i != j
    ensures forall k :: 0 <= k < |ss| ==> Idle(Exchanged(ss, i, j, delta)[k])
  {
    var e := Exchanged(ss, i, j, delta);
    forall k | 0 <= k < |ss|
      ensures Idle(e[k])
    {
      assert Quiet(ss[k]);
    }
  }

  /** The iteration that draws the pushed section. */
  lemma PushStep(ss: seq<SectionState>, i: nat, j: nat, delta: int, c: Clicks, e: seq<SectionState>)
    requires i < |ss| && j < |ss| && Quiet(ss[i]) && ss[i].enabled && ss[j].enabled
    requires (delta == 1 && j == i + 1) || (delta == -1 && j + 1 == i)
    requires c == (if delta == 1 then DownClick else UpClick) && e == Exchanged(ss, i, j, delta)
    ensures DrawStep(ss, c, i) == (e, true, false)
  {
    assert AfterControlGUI(ss[i], c) == ss[i].(pushState := delta);
    var d := ss[i := ss[i].(pushState := delta)];
    assert delta == 1 ==> PushDownApplies(d, i);
    assert delta == -1 ==> !PushDownApplies(d, i) && PushUpApplies(d, i);
    assert Exchanged(d, i, j, delta) == Exchanged(ss, i, j, delta);
  }

  lemma {:induction false} ExchangeKeepsUniform(ss: seq<SectionState>, i: nat, j: nat, delta: int)
    requires Uniform(ss) && i < |ss| && j < |ss| && i != j
    ensures Uniform(Exchanged(ss, i, j, delta))
  {
    var e := Exchanged(ss, i, j, delta);
    forall s | s in e
      ensures Coherent(s.activation) && !s.activation.mixed
    {
      var k :| 0 <= k < |e| && e[k] == s;
      if k != i && k != j {
        assert ss[k] in ss;
      }
    }
  }

  /** A push down on an enabled section that has an enabled section below it,
      in a quiet list as a renumbering leaves it (enabled sections hold 1..K
      in list order, deleted ones 0 anywhere): the two sections exchange
      their ordinals and the frame asks for a renumbering. Whatever order
      the sort picks (mid), the list ends with the z deleted sections first,
      then 1..K, and the pushed section (old ordinal v) right after its
      neighbour. */
  lemma {:induction false} PushDownSwapsWithNeighbour(ss: seq<SectionState>, i: nat, mid: seq<SectionState>)
    requires AllQuiet(ss) && Settled(ss)
    requires i + 1 < |ss| && ss[i].enabled && ss[i + 1].enabled
    requires SortedPermutation(DrawLoop(ss, ClickOnly(|ss|, i, DownClick), |ss|).0, mid)
    ensures var r := DrawLoop(ss, ClickOnly(|ss|, i, DownClick), |ss|);
            var z, v := |ss| - CountRenumberable(ss), ss[i].activation.value;
            && r.1 && !r.2
            && r.0[i] == Bumped(ss[i], 1) && r.0[i + 1] == Bumped(ss[i + 1], -1)
            && Contiguous(Ordinals(mid), z) && Renumbered(mid) == mid
            && 0 < v && z + v < |mid| && mid[z + v - 1] == r.0[i + 1] && mid[z + v] == r.0[i]
  {
    var r := DrawLoop(ss, ClickOnly(|ss|, i, DownClick), |ss|);
    var e := Exchanged(ss, i, i + 1, 1);
    PushResult(ss, i, i + 1, 1, r, e);
    SortAfterExchange(ss, i, i + 1, 1, i, e, mid, |ss| - CountRenumberable(ss), ss[i].activation.value);
  }

  /** The same for a push up on an enabled section that has an enabled
      section above it: the pushed section (old ordinal v) ends right before
      its neighbour. */
  lemma {:induction false} PushUpSwapsWithNeighbour(ss: seq<SectionState>, i: nat, mid: seq<SectionState>)
    requires AllQuiet(ss) && Settled(ss)
    requires 0 < i < |ss| && ss[i - 1].enabled && ss[i].enabled
    requires SortedPermutation(DrawLoop(ss, ClickOnly(|ss|, i, UpClick), |ss|).0, mid)
    ensures var r := DrawLoop(ss, ClickOnly(|ss|, i, UpClick), |ss|);
            var z, v := |ss| - CountRenumberable(ss), ss[i].activation.value;
            && r.1 && !r.2
            && r.0[i] == Bumped(ss[i], -1) && r.0[i - 1] == Bumped(ss[i - 1], 1)
            && Contiguous(Ordinals(mid), z) && Renumbered(mid) == mid
            && 1 < v && z + v - 1 < |mid| && mid[z + v - 2] == r.0[i] && mid[z + v - 1] == r.0[i - 1]
  {
    var r := DrawLoop(ss, ClickOnly(|ss|, i, UpClick), |ss|);
    var e := Exchanged(ss, i, i - 1, -1);
    PushResult(ss, i, i - 1, -1, r, e);
    var z, w := |ss| - CountRenumberable(ss), ss[i - 1].activation.value;
    SortAfterExchange(ss, i, i - 1, -1, i - 1, e, mid, z, w);
  }

  /** A push exchange in a settled list, then a sort: the exchanged pair
      (lo, lo + 1) ends swapped at positions z + w - 1 and z + w. */
  lemma SortAfterExchange(ss: seq<SectionState>, i: nat, j: nat, delta: int, lo: nat,
                          e: seq<SectionState>, mid: seq<SectionState>, z: nat, w: int)
    requires AllQuiet(ss) && Settled(ss) && i < |ss| && j < |ss| && ss[i].enabled && ss[j].enabled
    requires (delta == 1 && j == i + 1 && lo == i) || (delta == -1 && j + 1 == i && lo == j)
    requires e == Exchanged(ss, i, j, delta) && SortedPermutation(e, mid)
    requires z == |ss| - CountRenumberable(ss) && w == ss[lo].activation.value
    ensures lo + 1 < |ss| && ss[lo + 1].activation.value == w + 1
    ensures Contiguous(Ordinals(mid), z) && Renumbered(mid) == mid
    ensures 0 < w && z + w < |mid| && mid[z + w - 1] == e[lo + 1] && mid[z + w] == e[lo]
  {
    ExchangeFacts(ss, i, j, delta, lo, e);
    SortUndoesExchange(ss, e, mid, lo, z, w);
  }

  /** What SortUndoesExchange needs of a push exchange in a settled list. */
  lemma ExchangeFacts(ss: seq<SectionState>, i: nat, j: nat, delta: int, lo: nat, e: seq<SectionState>)
    requires AllQuiet(ss) && Settled(ss) && i < |ss| && j < |ss| && ss[i].enabled && ss[j].enabled
    requires (delta == 1 && j == i + 1 && lo == i) || (delta == -1 && j + 1 == i && lo == j)
    requires e == Exchanged(ss, i, j, delta)
    ensures lo + 1 < |ss| && |e| == |ss| && Uniform(e)
    ensures Renumberable(ss[lo].activation) && Renumberable(ss[lo + 1].activation)
    ensures ss[lo + 1].activation.value == ss[lo].activation.value + 1
    ensures Ordinals(e) == Ordinals(ss)[lo := ss[lo + 1].activation.value][lo + 1 := ss[lo].activation.value]
  {
    assert Quiet(ss[i]) && Quiet(ss[j]) && ss[i] in ss && ss[j] in ss;
    ExchangeKeepsUniform(ss, i, j, delta);
    SettledNeighbours(ss, lo);
    ExchangeSwapsNeighbours(ss, lo, i, delta, e);
  }

  /** PushFrame, with the two sections' new states spelled out. */
  lemma PushResult(ss: seq<SectionState>, i: nat, j: nat, delta: int, r: (seq<SectionState>, bool, bool), e: seq<SectionState>)
    requires AllQuiet(ss) && i < |ss| && j < |ss| && ss[i].enabled && ss[j].enabled
    requires (delta == 1 && j == i + 1) || (delta == -1 && j + 1 == i)
    requires r == DrawLoop(ss, ClickOnly(|ss|, i, if delta == 1 then DownClick else UpClick), |ss|)
    requires e == Exchanged(ss, i, j, delta)
    ensures r == (e, true, false)
    ensures e[i] == Bumped(ss[i], delta) && e[j] == Bumped(ss[j], -delta)
  {
    assert Quiet(ss[i]) && Quiet(ss[j]);
    PushFrame(ss, i, j, delta);
  }

  /** An exchange between neighbours holding v and v + 1 swaps their ordinals. */
  lemma ExchangeSwapsNeighbours(ss: seq<SectionState>, j: nat, i: nat, delta: int, e: seq<SectionState>)
    requires j + 1 < |ss| && ss[j + 1].activation.value == ss[j].activation.value + 1
    requires (delta == 1 && i == j) || (delta == -1 && i == j + 1)
    requires e == Exchanged(ss, i, if delta == 1 then j + 1 else j, delta)
    ensures Ordinals(e) == Ordinals(ss)[j := ss[j + 1].activation.value][j + 1 := ss[j].activation.value]
  {
    var o := Ordinals(ss);
    if delta == -1 {
      assert o[j + 1 := o[j + 1] - 1][j := o[j] + 1] == o[j := o[j + 1]][j + 1 := o[j]];
    }
  }

  /** A deleted section (disabled by its ordinal 0) keeps its activation
      property through a whole frame: no push of a neighbour writes it. */
  lemma {:induction false} DeletedSectionIsNotWritten(ss: seq<SectionState>, clicks: seq<Clicks>, n: nat, k: nat)
    requires n <= |ss| == |clicks| && k < |ss| && !ss[k].enabled
    ensures DrawLoop(ss, clicks, n).0[k].activation == ss[k].activation
    ensures !DrawLoop(ss, clicks, n).0[k].enabled
    decreases n
  {
    if n > 0 {
      DeletedSectionIsNotWritten(ss, clicks, n - 1, k);
      var prev := DrawLoop(ss, clicks, n - 1).0;
      if k != n - 1 {
        assert DrawLoop(ss, clicks, n).0[k] == DrawStep(prev, clicks[n - 1], n - 1).0[k];
        assert DrawStep(prev, clicks[n - 1], n - 1).0[k].enabled == prev[k].enabled by {
          if prev[n - 1].enabled {
            var d := prev[n - 1 := AfterControlGUI(prev[n - 1], clicks[n - 1])];
            assert d[k] == prev[k];
          }
        }
      }
    }
  }

  lemma {:induction false} SentinelSortsLast(pre: seq<SectionState>, p: nat, mid: seq<SectionState>)
    requires p < |pre| && pre[p].activation.value == Sentinel
    requires forall k :: 0 <= k < |pre| && k != p ==> pre[k].activation.value < Sentinel
    requires SortedPermutation(pre, mid)
    ensures |mid| == |pre| && mid[|mid| - 1] == pre[p]
  {
    PermutationKeepsMembers(mid, pre);
    PermutationKeepsMembers(pre, mid);
    var n := |mid|;
    assert pre[p] in pre;
    var q :| 0 <= q < n && mid[q] == pre[p];
    assert mid[n - 1] in mid;
    var a :| 0 <= a < |pre| && pre[a] == mid[n - 1];
    var v := Ordinals(mid);
    assert Sorted(v);
    assert v[q] <= v[n - 1] by {
      assert q == n - 1 || v[q] <= v[n - 1];
    }
    assert a == p;
  }

  lemma {:induction false} LastIsRenumberedToCount(mid: seq<SectionState>)
    requires |mid| > 0 && Renumberable(mid[|mid| - 1].activation)
    ensures Renumbered(mid)[|mid| - 1]
            == mid[|mid| - 1].(activation := WithValue(mid[|mid| - 1].activation, CountRenumberable(Renumbered(mid))))
  {
    RenumberingKeepsCount(mid);
  }

  /** What TurnOnSection writes to the section it turns on: the sentinel
      ordinal and the "turned on" notice. */
  function TurnedOn(s: SectionState): (r: SectionState)
    ensures r.activation.value == Sentinel && !r.activation.mixed && r.turnedOn
    ensures r.(activation := s.activation, turnedOn := s.turnedOn) == s
  {
    s.(activation := WithValue(s.activation, Sentinel), turnedOn := true)
  }

  /** TurnOnSection gives the section the sentinel ordinal 753; while every
      other ordinal is below it, every ascending sort puts that section last,
      and the renumbering then gives it M, the number of renumberable
      sections. */
  lemma {:induction false} TurnedOnSectionGoesLast(pre: seq<SectionState>, p: nat, mid: seq<SectionState>)
    requires p < |pre| && pre[p].activation.value == Sentinel && !pre[p].activation.mixed
    requires forall k :: 0 <= k < |pre| && k != p ==> pre[k].activation.value < Sentinel
    requires SortedPermutation(pre, mid)
    ensures |mid| == |pre| && mid[|mid| - 1] == pre[p]
    ensures Renumbered(mid)[|mid| - 1]
            == pre[p].(activation := WithValue(pre[p].activation, CountRenumberable(Renumbered(mid))))
  {
    SentinelSortsLast(pre, p, mid);
    LastIsRenumberedToCount(mid);
  }

  /** A section with one material, freshly drawn with the given ordinal. */
  function Fresh(name: string, v: int): (r: SectionState)
    ensures Quiet(r) && Coherent(r.activation) && !r.activation.mixed
  {
    SectionState(FloatProperty(name, v, false, [v]), 0, false, false, v > 0, false, false)
  }

  const DeleteClick := Clicks(false, false, true)

  /** Section B after its delete toggle was clicked and the next PredrawUpdate. */
  const DeletedB := SectionState(FloatProperty("_B", 0, false, [0]), 0, false, false, false, false, false)

  /** Frame one: A and B numbered 1 and 2, B's delete toggle is clicked. The
      frame asks to refresh the "new sections" cache but not to renumber, so
      the next frame starts with B at 0 below A. */
  lemma DeleteLeavesZeroBelow()
    ensures var r := DrawLoop([Fresh("_A", 1), Fresh("_B", 2)], ClickOnly(2, 1, DeleteClick), 2);
            !r.1 && r.2 && PredrawAll(r.0) == [Fresh("_A", 1), DeletedB]
  {
    var s0 := [Fresh("_A", 1), Fresh("_B", 2)];
    var c1 := ClickOnly(2, 1, DeleteClick);
    QuietIterations(s0, c1, (s0, false, false), 0, 1);
    var b := AfterControlGUI(s0[1], DeleteClick);
    assert b.activation == FloatProperty("_B", 0, false, [0]);
    assert Predrawn(b) == DeletedB;
  }

  /** Frame two, as written: A is pushed down and its disabled neighbour B is
      written -1; B stays disabled, so the rest of the loop skips it. */
  lemma PushDownWritesDeletedNeighbour()
    ensures var s1 := [Fresh("_A", 1), DeletedB];
            var f2 := DrawLoopAsWritten(s1, ClickOnly(2, 0, DownClick), 2);
            && f2.1 && Ordinals(f2.0) == [2, -1]
            && Renumberable(f2.0[1].activation) && f2.0[1].(activation := DeletedB.activation) == DeletedB
  {
    var s1 := [Fresh("_A", 1), DeletedB];
    var c := ClickOnly(2, 0, DownClick);
    var w := ApplyPushAsWritten(s1[0 := AfterControlGUI(s1[0], DownClick)], 0);
    assert DrawLoopAsWritten(s1, c, 1) == (w, true, false);
    assert !w[1].enabled;
  }

  /** Frame two, corrected: B keeps its 0. */
  lemma PushDownSkipsDeletedNeighbour()
    ensures var s1 := [Fresh("_A", 1), DeletedB];
            var f2 := DrawLoop(s1, ClickOnly(2, 0, DownClick), 2);
            f2.1 && f2.0[1] == DeletedB
  {
    var s1 := [Fresh("_A", 1), DeletedB];
    var c := ClickOnly(2, 0, DownClick);
    var w := ApplyPush(s1[0 := AfterControlGUI(s1[0], DownClick)], 0);
    assert DrawLoop(s1, c, 1) == (w, true, false);
    assert w[1] == DeletedB;
  }

  /** Whatever the sort does with the ordinals 2, -1, the section at -1 comes
      first and the renumbering gives it 1. */
  lemma {:induction false} MinusOneIsRenumberedFirst(w: seq<SectionState>, mid: seq<SectionState>)
    requires |w| == 2 && Ordinals(w) == [2, -1] && Renumberable(w[1].activation)
    requires SortedPermutation(w, mid)
    ensures mid[0] == w[1] && Renumbered(mid)[0].activation.value == 1
  {
    OrdinalsFollowPermutation(mid, w);
    assert multiset(Ordinals(w)) == multiset([-1, 2]);
    SortedArrangementIsUnique(Ordinals(mid), [-1, 2]);
    PermutationKeepsMembers(mid, w);
    assert mid[0] in w;
    assert mid[..0] == [];
  }

  /** The frame loop as written revives a deleted section: after frame one,
      a push down on A in frame two moves B to -1, the sort puts B first and
      the renumbering gives it 1, so B is enabled again, above A. With the
      neighbour check B keeps its 0. */
  lemma PushDownRevivesDeletedSection()
    ensures var f1 := DrawLoop([Fresh("_A", 1), Fresh("_B", 2)], ClickOnly(2, 1, DeleteClick), 2);
            var s1 := PredrawAll(f1.0);
            var f2 := DrawLoopAsWritten(s1, ClickOnly(2, 0, DownClick), 2);
            && !f1.1 && s1[1].activation.value == 0 && !s1[1].enabled
            && f2.1
            && (forall mid: seq<SectionState> :: SortedPermutation(f2.0, mid) ==>
                  mid[0].activation.name == "_B" && Renumbered(mid)[0].activation.value == 1)
            && DrawLoop(s1, ClickOnly(2, 0, DownClick), 2).0[1] == s1[1]
  {
    DeleteLeavesZeroBelow();
    PushDownWritesDeletedNeighbour();
    PushDownSkipsDeletedNeighbour();
    var s1 := [Fresh("_A", 1), DeletedB];
    var w := DrawLoopAsWritten(s1, ClickOnly(2, 0, DownClick), 2).0;
    forall mid: seq<SectionState> | SortedPermutation(w, mid)
      ensures mid[0].activation.name == "_B" && Renumbered(mid)[0].activation.value == 1
    {
      MinusOneIsRenumberedFirst(w, mid);
    }
  }
}
