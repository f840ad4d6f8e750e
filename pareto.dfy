/**
 * Pareto analysis of corrective-action causes: causes are admitted through a
 * guard, the list is stably sorted by units (largest first) in place, and each
 * ranked cause gets its cumulative share of the total units, in percent.
 */
module Pareto {
  import opened Common

  datatype Cause = Cause(id: string, description: string, units: real, comments: string)

  /**
   * One row of the chart. `accumulated` is None where the source divides by
   * a zero total (JavaScript yields NaN or Infinity there).
   */
  datatype ParetoRow = ParetoRow(name: string, units: real, accumulated: Option<real>)

  /** The cleared entry form. */
  const EmptyDraft: Cause := Cause("", "", 0.0, "")

  /** The guard of `handleAddCause`: a description and a positive number of units. */
  predicate Admissible(c: Cause) {
    c.description != "" && c.units > 0.0
  }

  // ---------------------------------------------------------------- ordering

  /** Non-increasing units: the order the comparator `b.units - a.units` asks for. */
  predicate SortedByUnits(s: seq<Cause>) {
    forall i, j :: 0 <= i < j < |s| ==> s[i].units >= s[j].units
  }

  /**
   * Places `c` after every cause of `s` with at least as many units: where a
   * stable descending sort puts an element that comes after all of `s`.
   */
  function Insert(c: Cause, s: seq<Cause>): seq<Cause> {
    if s == [] then [c]
    else if s[0].units >= c.units then [s[0]] + Insert(c, s[1..])
    else [c] + s
  }

  lemma {:induction false} InsertPermutes(c: Cause, s: seq<Cause>)
    ensures multiset(Insert(c, s)) == multiset(s) + multiset{c}
  {
    if s != [] && s[0].units >= c.units {
      InsertPermutes(c, s[1..]);
      assert [s[0]] + s[1..] == s;
    }
  }

  lemma {:induction false} InsertSorted(c: Cause, s: seq<Cause>)
    requires SortedByUnits(s)
    ensures SortedByUnits(Insert(c, s))
  {
    if s != [] && s[0].units >= c.units {
      var rest := Insert(c, s[1..]);
      InsertSorted(c, s[1..]);
      InsertPermutes(c, s[1..]);
      forall k | 0 <= k < |rest|
        ensures s[0].units >= rest[k].units
      {
        assert rest[k] in multiset(rest);
        assert rest[k] == c || rest[k] in multiset(s[1..]);
      }
    }
  }

  /** The stable sort by units, largest first, as insertion sort from the left. */
  function SortByUnits(s: seq<Cause>): seq<Cause> {
    if s == [] then [] else Insert(s[|s| - 1], SortByUnits(s[..|s| - 1]))
  }

  /** The sort only reorders: the result is a permutation of its input. */
  lemma {:induction false} SortByUnitsPermutes(s: seq<Cause>)
    ensures multiset(SortByUnits(s)) == multiset(s)
  {
    if s != [] {
      SortByUnitsPermutes(s[..|s| - 1]);
      InsertPermutes(s[|s| - 1], SortByUnits(s[..|s| - 1]));
      assert s[..|s| - 1] + [s[|s| - 1]] == s;
    }
  }

  lemma {:induction false} SortByUnitsSorted(s: seq<Cause>)
    ensures SortedByUnits(SortByUnits(s))
  {
    if s != [] {
      SortByUnitsSorted(s[..|s| - 1]);
      InsertSorted(s[|s| - 1], SortByUnits(s[..|s| - 1]));
    }
  }

  /** The causes of `s` that have exactly `u` units, in their order in `s`. */
  function WithUnits(s: seq<Cause>, u: real): seq<Cause> {
    if s == [] then []
    else (if s[0].units == u then [s[0]] else []) + WithUnits(s[1..], u)
  }

  lemma {:induction false} WithUnitsAppend(a: seq<Cause>, b: seq<Cause>, u: real)
    ensures WithUnits(a + b, u) == WithUnits(a, u) + WithUnits(b, u)
  {
    if a == [] {
      assert a + b == b;
    } else {
      var ab := a + b;
      var head := if a[0].units == u then [a[0]] else [];
      assert ab[0] == a[0] && ab[1..] == a[1..] + b;
      WithUnitsAppend(a[1..], b, u);
      assert WithUnits(ab, u) == head + WithUnits(a[1..] + b, u);
      assert WithUnits(a, u) == head + WithUnits(a[1..], u);
    }
  }

  lemma {:induction false} WithUnitsNone(s: seq<Cause>, u: real)
    requires forall i :: 0 <= i < |s| ==> s[i].units < u
    ensures WithUnits(s, u) == []
  {
    if s != [] {
      WithUnitsNone(s[1..], u);
    }
  }

  lemma WithUnitsCons(x: Cause, s: seq<Cause>, u: real)
    ensures WithUnits([x] + s, u) == (if x.units == u then [x] else []) + WithUnits(s, u)
  {
    assert ([x] + s)[0] == x && ([x] + s)[1..] == s;
  }

  /** Inserting into a sorted list puts `c` after every cause with its units. */
  lemma {:induction false} InsertWithUnits(c: Cause, s: seq<Cause>, u: real)
    requires SortedByUnits(s)
    ensures WithUnits(Insert(c, s), u) == WithUnits(s, u) + (if c.units == u then [c] else [])
  {
    if s == [] {
      WithUnitsCons(c, [], u);
    } else if s[0].units >= c.units {
      SortedTail(s);
      InsertWithUnits(c, s[1..], u);
      InsertWithUnitsStep(c, s, u);
    } else {
      WithUnitsCons(c, s, u);
      if c.units == u {
        SmallerThanHead(s, u);
      }
    }
  }

  lemma SortedTail(s: seq<Cause>)
    requires SortedByUnits(s) && s != []
    ensures SortedByUnits(s[1..])
  {
  }

  /** The step of `InsertWithUnits` where `c` goes past the head of `s`. */
  lemma InsertWithUnitsStep(c: Cause, s: seq<Cause>, u: real)
    requires s != [] && s[0].units >= c.units
    requires WithUnits(Insert(c, s[1..]), u) == WithUnits(s[1..], u) + (if c.units == u then [c] else [])
    ensures WithUnits(Insert(c, s), u) == WithUnits(s, u) + (if c.units == u then [c] else [])
  {
    WithUnitsCons(s[0], Insert(c, s[1..]), u);
    WithUnitsCons(s[0], s[1..], u);
    assert [s[0]] + s[1..] == s;
  }

  /** No cause of a sorted list has more units than its head. */
  lemma SmallerThanHead(s: seq<Cause>, u: real)
    requires SortedByUnits(s) && s != [] && s[0].units < u
    ensures WithUnits(s, u) == []
  {
    forall k | 0 <= k < |s|
      ensures s[k].units < u
    {
      assert s[0].units >= s[k].units;
    }
    WithUnitsNone(s, u);
  }

  /**
   * The sort is stable: the causes that share a number of units come out in
   * the order they went in.
   */
  lemma {:induction false} SortIsStable(s: seq<Cause>, u: real)
    ensures WithUnits(SortByUnits(s), u) == WithUnits(s, u)
  {
    if s != [] {
      var init, last := s[..|s| - 1], s[|s| - 1];
      assert init + [last] == s;
      var here := if last.units == u then [last] else [];
      SortIsStable(init, u);
      SortByUnitsSorted(init);
      InsertWithUnits(last, SortByUnits(init), u);
      WithUnitsAppend(init, [last], u);
      assert WithUnits([last], u) == here + WithUnits([], u);
      calc {
        WithUnits(SortByUnits(s), u);
        WithUnits(Insert(last, SortByUnits(init)), u);
        WithUnits(SortByUnits(init), u) + here;
        WithUnits(init, u) + here;
        WithUnits(s, u);
      }
    }
  }

  /** Where `c` lands, given the boundary between larger-or-equal and smaller causes. */
  lemma {:induction false} InsertAt(c: Cause, s: seq<Cause>, j: int)
    requires 0 <= j <= |s|
    requires forall k :: 0 <= k < j ==> s[k].units >= c.units
    requires forall k :: j <= k < |s| ==> s[k].units < c.units
    ensures Insert(c, s) == s[..j] + [c] + s[j..]
  {
    if j > 0 {
      var tail := s[1..];
      forall k | 0 <= k < j - 1
        ensures tail[k].units >= c.units
      {
        assert tail[k] == s[k + 1];
      }
      forall k | j - 1 <= k < |tail|
        ensures tail[k].units < c.units
      {
        assert tail[k] == s[k + 1];
      }
      InsertAt(c, tail, j - 1);
      assert s[0].units >= c.units;
      assert Insert(c, s) == [s[0]] + Insert(c, tail);
      assert [s[0]] + tail[..j - 1] == s[..j];
      assert tail[j - 1..] == s[j..];
    } else if s != [] {
      assert s[0].units < c.units;
      assert s[..0] + [c] + s[0..] == [c] + s;
    }
  }

  /**
   * The inner loop of the insertion sort: shifts the causes just before
   * `a[i]` that have fewer units one place to the right, and returns the slot
   * freed for `a[i]`.
   */
  method ShiftSmaller(a: array<Cause>, i: int) returns (j: int)
    requires 0 <= i < a.Length
    modifies a
    ensures 0 <= j <= i
    ensures forall k :: 0 <= k < j ==> a[k] == old(a[k])
    ensures forall k :: j < k <= i ==> a[k] == old(a[k - 1])
    ensures forall k :: j <= k < i ==> old(a[k]).units < old(a[i]).units
    ensures j > 0 ==> old(a[j - 1]).units >= old(a[i]).units
    ensures forall k :: i < k < a.Length ==> a[k] == old(a[k])
  {
    var c := a[i];
    j := i;
    while j > 0 && a[j - 1].units < c.units
      invariant 0 <= j <= i
      invariant forall k :: 0 <= k < j ==> a[k] == old(a[k])
      invariant forall k :: j < k <= i ==> a[k] == old(a[k - 1])
      invariant forall k :: j <= k < i ==> old(a[k]).units < c.units
      invariant forall k :: i < k < a.Length ==> a[k] == old(a[k])
    {
      a[j] := a[j - 1];
      j := j - 1;
    }
  }

  /**
   * The array after the shift and the store of `c` is `Insert(c, sorted)`:
   * the causes before `j` stay, `c` sits at `j`, the smaller ones moved one up.
   */
  lemma PlacedIsInsert(sorted: seq<Cause>, c: Cause, j: int, placed: seq<Cause>)
    requires SortedByUnits(sorted) && 0 <= j <= |sorted| && |placed| == |sorted| + 1
    requires forall k :: 0 <= k < j ==> placed[k] == sorted[k]
    requires placed[j] == c
    requires forall k :: j < k <= |sorted| ==> placed[k] == sorted[k - 1]
    requires forall k :: j <= k < |sorted| ==> sorted[k].units < c.units
    requires j > 0 ==> sorted[j - 1].units >= c.units
    ensures placed == Insert(c, sorted)
  {
    forall k | 0 <= k < j
      ensures sorted[k].units >= c.units
    {
      assert sorted[k].units >= sorted[j - 1].units;
    }
    InsertAt(c, sorted, j);
    assert placed == sorted[..j] + [c] + sorted[j..];
  }

  /** One step of the insertion sort: `a[i]` joins the sorted prefix `a[..i]`. */
  method InsertLast(a: array<Cause>, i: int)
    requires 0 <= i < a.Length && SortedByUnits(a[..i])
    modifies a
    ensures a[..i + 1] == Insert(old(a[i]), old(a[..i]))
    ensures a[i + 1..] == old(a[i + 1..])
  {
    ghost var sorted := a[..i];
    var c := a[i];
    var j := ShiftSmaller(a, i);
    a[j] := c;
    PlacedIsInsert(sorted, c, j, a[..i + 1]);
  }

  /**
   * `causes.sort((a, b) => b.units - a.units)`: a stable in-place sort,
   * written as insertion sort.
   */
  method SortInPlace(a: array<Cause>)
    modifies a
    ensures a[..] == SortByUnits(old(a[..]))
  {
    ghost var orig := a[..];
    var i := 0;
    while i < a.Length
      invariant 0 <= i <= a.Length
      invariant a[..i] == SortByUnits(orig[..i])
      invariant a[i..] == orig[i..]
    {
      SortByUnitsSorted(orig[..i]);
      InsertLast(a, i);
      assert a[..i + 1] == SortByUnits(orig[..i + 1]) by {
        assert orig[..i + 1][..i] == orig[..i];
      }
      i := i + 1;
    }
    assert orig[..a.Length] == orig;
  }

  // ---------------------------------------------------------------- shares

  /** Sum of units, added from the left as `reduce((sum, c) => sum + c.units, 0)` does. */
  function Total(s: seq<Cause>): real {
    if s == [] then 0.0 else Total(s[..|s| - 1]) + s[|s| - 1].units
  }

  /** Share of the total units in `s[..i + 1]`, in percent; None on a zero total. */
  function Accumulated(s: seq<Cause>, i: int): Option<real>
    requires 0 <= i < |s|
  {
    var total := Total(s);
    if total == 0.0 then None else Some(Total(s[..i + 1]) / total * 100.0)
  }

  /** The chart rows for causes already in ranked order. */
  function ParetoRows(s: seq<Cause>): (rows: seq<ParetoRow>)
    ensures |rows| == |s|
    ensures forall i :: 0 <= i < |s| ==>
      rows[i].name == s[i].description && rows[i].units == s[i].units &&
      rows[i].accumulated == Accumulated(s, i)
  {
    seq(|s|, i requires 0 <= i < |s| => ParetoRow(s[i].description, s[i].units, Accumulated(s, i)))
  }

  predicate NonNegativeUnits(s: seq<Cause>) {
    forall i :: 0 <= i < |s| ==> s[i].units >= 0.0
  }

  lemma {:induction false} PrefixTotalMonotone(s: seq<Cause>, i: int, j: int)
    requires NonNegativeUnits(s)
    requires 0 <= i <= j <= |s|
    ensures 0.0 <= Total(s[..i]) <= Total(s[..j])
    decreases j
  {
    if j > 0 {
      assert s[..j][..j - 1] == s[..j - 1];
      if i < j {
        PrefixTotalMonotone(s, i, j - 1);
      } else {
        PrefixTotalMonotone(s, i - 1, j - 1);
      }
    }
  }

  /** A share of a positive total grows with the part and stays within 0..100. */
  lemma ShareMonotone(a: real, b: real, t: real)
    requires 0.0 <= a <= b <= t && t > 0.0
    ensures 0.0 <= a / t * 100.0 <= b / t * 100.0 <= 100.0
  {
    assert a / t <= b / t;
    assert b / t <= t / t;
  }

  /**
   * With non-negative units and a positive total, every row has a share in
   * [0, 100], the shares never decrease down the ranking, and the last is
   * exactly 100.
   */
  lemma ParetoSharesMonotone(s: seq<Cause>)
    requires NonNegativeUnits(s) && Total(s) > 0.0
    ensures var rows := ParetoRows(s);
      |rows| > 0 &&
      (forall i :: 0 <= i < |rows| ==>
        rows[i].accumulated.Some? && 0.0 <= rows[i].accumulated.value <= 100.0) &&
      (forall i, j :: 0 <= i <= j < |rows| ==>
        rows[i].accumulated.value <= rows[j].accumulated.value) &&
      rows[|rows| - 1].accumulated == Some(100.0)
  {
    var rows := ParetoRows(s);
    forall i | 0 <= i < |rows|
      ensures rows[i].accumulated.Some? && 0.0 <= rows[i].accumulated.value <= 100.0
    {
      ShareInRange(s, i);
    }
    forall i, j | 0 <= i <= j < |rows|
      ensures rows[i].accumulated.value <= rows[j].accumulated.value
    {
      ShareInRange(s, i);
      ShareInRange(s, j);
      ShareOrder(s, i, j);
    }
    LastShare(s);
  }

  /** Each row's share is defined and lies in [0, 100]. */
  lemma ShareInRange(s: seq<Cause>, i: int)
    requires NonNegativeUnits(s) && Total(s) > 0.0 && 0 <= i < |s|
    ensures Accumulated(s, i).Some? && 0.0 <= Accumulated(s, i).value <= 100.0
  {
    PrefixTotalMonotone(s, i + 1, |s|);
    assert s[..|s|] == s;
    ShareMonotone(Total(s[..i + 1]), Total(s), Total(s));
  }

  /** A later row never has a smaller share. */
  lemma ShareOrder(s: seq<Cause>, i: int, j: int)
    requires NonNegativeUnits(s) && Total(s) > 0.0 && 0 <= i <= j < |s|
    ensures Accumulated(s, i).Some? && Accumulated(s, j).Some?
    ensures Accumulated(s, i).value <= Accumulated(s, j).value
  {
    PrefixTotalMonotone(s, i + 1, j + 1);
    PrefixTotalMonotone(s, j + 1, |s|);
    assert s[..|s|] == s;
    ShareMonotone(Total(s[..i + 1]), Total(s[..j + 1]), Total(s));
  }

  /** The last row covers the whole total. */
  lemma LastShare(s: seq<Cause>)
    requires Total(s) > 0.0 && s != []
    ensures Accumulated(s, |s| - 1) == Some(100.0)
  {
    assert s[..|s|] == s;
    WholeShare(Total(s));
  }

  lemma WholeShare(t: real)
    requires t > 0.0
    ensures t / t * 100.0 == 100.0
  {
    assert t / t == 1.0;
  }

  /** A non-empty list of admitted causes has a positive total, so its shares are defined. */
  lemma {:induction false} AdmittedTotalPositive(s: seq<Cause>)
    requires s != [] && forall i :: 0 <= i < |s| ==> s[i].units > 0.0
    ensures Total(s) > 0.0
    decreases |s|
  {
    if |s| > 1 {
      AdmittedTotalPositive(s[..|s| - 1]);
    }
  }

  // ---------------------------------------------------------------- component state

  /** The Pareto form: the recorded causes and the cause being entered. */
  class ParetoAnalysis {
    var causes: array<Cause>
    var draft: Cause

    constructor (initialCauses: seq<Cause>)
      ensures fresh(causes) && causes[..] == initialCauses
      ensures draft == EmptyDraft
    {
      causes := new Cause[|initialCauses|](i requires 0 <= i < |initialCauses| => initialCauses[i]);
      draft := EmptyDraft;
    }

    /** The input fields of the entry form. */
    method EditDraft(description: string, units: real, comments: string)
      modifies this
      ensures draft == old(draft).(description := description, units := units, comments := comments)
      ensures causes == old(causes)
    {
      draft := draft.(description := description, units := units, comments := comments);
    }

    /**
     * `handleAddCause`: an admissible draft is appended, under a fresh id, to a
     * new causes array and the form is cleared; otherwise nothing changes.
     */
    method AddCause(freshId: string)
      modifies this
      ensures Admissible(old(draft)) ==>
        fresh(causes) && causes[..] == old(causes[..]) + [old(draft).(id := freshId)] &&
        draft == EmptyDraft
      ensures !Admissible(old(draft)) ==>
        causes == old(causes) && causes[..] == old(causes[..]) && draft == old(draft)
    {
      if draft.description == "" || draft.units <= 0.0 {
        return;
      }
      var s := causes[..] + [draft.(id := freshId)];
      causes := new Cause[|s|](i requires 0 <= i < |s| => s[i]);
      draft := EmptyDraft;
    }

    /** `paretoData`: sorts the causes array in place, then builds the rows. */
    method ParetoData() returns (rows: seq<ParetoRow>)
      modifies causes
      ensures causes[..] == SortByUnits(old(causes[..]))
      ensures rows == ParetoRows(causes[..])
    {
      SortInPlace(causes);
      rows := ParetoRows(causes[..]);
    }
  }
}
