/** Which byte ranges a recording reads: `apps/gr-console/src/record.rs`, `merge_ranges`. */
module Record {

  type Range = (nat, nat)

  predicate Before(a: Range, b: Range) {
    a.0 < b.0 || (a.0 == b.0 && a.1 <= b.1)
  }

  predicate Sorted(rs: seq<Range>) {
    forall i, j | 0 <= i < j < |rs| :: Before(rs[i], rs[j])
  }

  function Insert(r: Range, rs: seq<Range>): (s: seq<Range>)
    ensures multiset(s) == multiset([r]) + multiset(rs)
  {
    if rs == [] then [r]
    else if Before(r, rs[0]) then [r] + rs
    else
      assert rs == [rs[0]] + rs[1..];
      [rs[0]] + Insert(r, rs[1..])
  }

  /** `sort_unstable` */
  function Sort(rs: seq<Range>): (s: seq<Range>)
    ensures multiset(s) == multiset(rs)
  {
    if rs == [] then []
    else
      assert rs == [rs[0]] + rs[1..];
      Insert(rs[0], Sort(rs[1..]))
  }

  lemma {:induction false} InsertSorted(r: Range, rs: seq<Range>)
    requires Sorted(rs)
    ensures Sorted(Insert(r, rs))
  {
    if rs != [] && !Before(r, rs[0]) {
      InsertSorted(r, rs[1..]);
      var s := Insert(r, rs[1..]);
      forall j | 0 <= j < |s| ensures Before(rs[0], s[j]) {
        assert s[j] in multiset(s);
      }
    }
  }

  lemma {:induction false} SortSorted(rs: seq<Range>)
    ensures Sorted(Sort(rs))
  {
    if rs != [] {
      SortSorted(rs[1..]);
      InsertSorted(rs[0], Sort(rs[1..]));
    }
  }

  function Max(a: nat, b: nat): nat { if a >= b then a else b }

  predicate Joins(out: seq<Range>, r: Range, gap: nat) {
    out != [] && r.0 <= out[|out| - 1].1 + gap
  }

  function Add(out: seq<Range>, r: Range, gap: nat): seq<Range> {
    if Joins(out, r, gap) then
      var last := out[|out| - 1];
      out[..|out| - 1] + [(last.0, Max(last.1, r.1))]
    else out + [r]
  }

  /** The ranges merged one after the other. */
  function Merged(rs: seq<Range>, gap: nat): seq<Range> {
    if rs == [] then [] else Add(Merged(rs[..|rs| - 1], gap), rs[|rs| - 1], gap)
  }

  /** `merge_ranges` */
  method MergeRanges(ranges: seq<Range>, gap: nat) returns (out: seq<Range>)
    ensures out == Merged(Sort(ranges), gap)
  {
    var sorted := Sort(ranges);
    out := [];
    for i := 0 to |sorted|
      invariant out == Merged(sorted[..i], gap)
    {
      assert sorted[..i + 1][..i] == sorted[..i];
      var (lo, hi) := sorted[i];
      if out != [] && lo <= out[|out| - 1].1 + gap {
        out := out[|out| - 1 := (out[|out| - 1].0, Max(out[|out| - 1].1, hi))];
      } else {
        out := out + [(lo, hi)];
      }
    }
    assert sorted[..|sorted|] == sorted;
  }

  // ---------------------------------------------------------------- what merging promises

  predicate Proper(rs: seq<Range>) {
    forall i | 0 <= i < |rs| :: rs[i].0 <= rs[i].1
  }

  /** In order, each more than `gap` behind the one before. */
  predicate Spaced(out: seq<Range>, gap: nat) {
    && Proper(out)
    && forall i, j | 0 <= i < j < |out| :: out[i].1 + gap < out[j].0
  }

  predicate Inside(r: Range, o: Range) {
    o.0 <= r.0 && r.1 <= o.1
  }

  predicate Covered(r: Range, out: seq<Range>) {
    exists k :: 0 <= k < |out| && Inside(r, out[k])
  }

  predicate StartsAt(rs: seq<Range>, x: nat) {
    exists i :: 0 <= i < |rs| && rs[i].0 == x
  }

  predicate EndsAt(rs: seq<Range>, x: nat) {
    exists i :: 0 <= i < |rs| && rs[i].1 == x
  }

  /** `x` lies in one of the ranges, or at most `gap` behind it. */
  predicate Near(rs: seq<Range>, x: nat, gap: nat) {
    exists i :: 0 <= i < |rs| && rs[i].0 <= x <= rs[i].1 + gap
  }

  /** Every output begins and ends where inputs do, and reads nothing farther than `gap` behind an input. */
  ghost predicate Tight(rs: seq<Range>, out: seq<Range>, gap: nat) {
    && (forall k | 0 <= k < |out| :: StartsAt(rs, out[k].0) && EndsAt(rs, out[k].1))
    && (forall k, x: nat | 0 <= k < |out| && out[k].0 <= x <= out[k].1 :: Near(rs, x, gap))
  }

  lemma CoveredStays(r: Range, out: seq<Range>, s: Range, gap: nat)
    requires Covered(r, out)
    ensures Covered(r, Add(out, s, gap))
  {
    var k :| 0 <= k < |out| && Inside(r, out[k]);
    assert Inside(r, Add(out, s, gap)[k]);
  }

  /** The last output starts no later than the last input. */
  predicate LastFits(rs: seq<Range>, out: seq<Range>) {
    rs != [] ==> out != [] && out[|out| - 1].0 <= rs[|rs| - 1].0
  }

  lemma AddSpaced(out: seq<Range>, r: Range, gap: nat)
    requires Spaced(out, gap) && r.0 <= r.1 && (out != [] ==> out[|out| - 1].0 <= r.0)
    ensures Spaced(Add(out, r, gap), gap) && Add(out, r, gap) != []
    ensures Inside(r, Add(out, r, gap)[|Add(out, r, gap)| - 1]) && Add(out, r, gap)[|Add(out, r, gap)| - 1].0 <= r.0
  {
  }

  lemma {:induction false} MergedSpaced(rs: seq<Range>, gap: nat)
    requires Sorted(rs) && Proper(rs)
    ensures Spaced(Merged(rs, gap), gap) && LastFits(rs, Merged(rs, gap))
  {
    if rs != [] {
      var front, r := rs[..|rs| - 1], rs[|rs| - 1];
      MergedSpaced(front, gap);
      if front != [] { assert Before(front[|front| - 1], r); }
      if front == [] { assert Merged(front, gap) == []; }
      AddSpaced(Merged(front, gap), r, gap);
    }
  }

  lemma {:induction false} MergedCovers(rs: seq<Range>, gap: nat, i: nat)
    requires Sorted(rs) && Proper(rs) && i < |rs|
    ensures Covered(rs[i], Merged(rs, gap))
  {
    var front, r := rs[..|rs| - 1], rs[|rs| - 1];
    if i < |front| {
      MergedCovers(front, gap, i);
      CoveredStays(rs[i], Merged(front, gap), r, gap);
    } else {
      MergedSpaced(front, gap);
      if front != [] { assert Before(front[|front| - 1], r); }
      if front == [] { assert Merged(front, gap) == []; }
      AddSpaced(Merged(front, gap), r, gap);
    }
  }

  lemma MoreNear(rs: seq<Range>, r: Range, x: nat, gap: nat)
    requires Near(rs, x, gap) || r.0 <= x <= r.1 + gap
    ensures Near(rs + [r], x, gap)
  {
    if Near(rs, x, gap) {
      var i :| 0 <= i < |rs| && rs[i].0 <= x <= rs[i].1 + gap;
      assert (rs + [r])[i] == rs[i];
    } else {
      assert (rs + [r])[|rs|] == r;
    }
  }

  lemma MoreEnds(rs: seq<Range>, r: Range, x: nat)
    ensures StartsAt(rs, x) || x == r.0 ==> StartsAt(rs + [r], x)
    ensures EndsAt(rs, x) || x == r.1 ==> EndsAt(rs + [r], x)
  {
    assert (rs + [r])[|rs|] == r;
    if StartsAt(rs, x) {
      var i :| 0 <= i < |rs| && rs[i].0 == x;
      assert (rs + [r])[i].0 == x;
    }
    if EndsAt(rs, x) {
      var i :| 0 <= i < |rs| && rs[i].1 == x;
      assert (rs + [r])[i].1 == x;
    }
  }

  lemma AddTight(rs: seq<Range>, out: seq<Range>, r: Range, gap: nat)
    requires Tight(rs, out, gap) && Proper(rs)
    ensures Tight(rs + [r], Add(out, r, gap), gap)
  {
    var out' := Add(out, r, gap);
    forall k | 0 <= k < |out'| ensures StartsAt(rs + [r], out'[k].0) && EndsAt(rs + [r], out'[k].1) {
      MoreEnds(rs, r, out'[k].0);
      MoreEnds(rs, r, out'[k].1);
    }
    forall k, x: nat | 0 <= k < |out'| && out'[k].0 <= x <= out'[k].1 ensures Near(rs + [r], x, gap) {
      if k < |out| && x <= out[k].1 {
        assert Near(rs, x, gap);
      } else if k < |out| && x < r.0 {
        EndNear(rs, out, k, x, gap);
      }
      MoreNear(rs, r, x, gap);
    }
  }

  lemma EndNear(rs: seq<Range>, out: seq<Range>, k: nat, x: nat, gap: nat)
    requires Tight(rs, out, gap) && k < |out| && out[k].1 <= x <= out[k].1 + gap && Proper(rs)
    ensures Near(rs, x, gap)
  {
    var i :| 0 <= i < |rs| && rs[i].1 == out[k].1;
    assert rs[i].0 <= x <= rs[i].1 + gap;
  }

  lemma {:induction false} MergedTight(rs: seq<Range>, gap: nat)
    requires Proper(rs)
    ensures Tight(rs, Merged(rs, gap), gap)
  {
    if rs != [] {
      MergedTight(rs[..|rs| - 1], gap);
      AddTight(rs[..|rs| - 1], Merged(rs[..|rs| - 1], gap), rs[|rs| - 1], gap);
      assert rs == rs[..|rs| - 1] + [rs[|rs| - 1]];
    }
  }

  lemma SortKeeps(rs: seq<Range>)
    ensures forall r :: r in Sort(rs) <==> r in rs
    ensures Proper(rs) <==> Proper(Sort(rs))
  {
    forall r ensures r in Sort(rs) <==> r in rs { assert r in multiset(Sort(rs)) <==> r in multiset(rs); }
    if Proper(rs) { forall i | 0 <= i < |Sort(rs)| ensures Sort(rs)[i].0 <= Sort(rs)[i].1 { assert Sort(rs)[i] in rs; } }
    if Proper(Sort(rs)) { forall i | 0 <= i < |rs| ensures rs[i].0 <= rs[i].1 { assert rs[i] in Sort(rs); } }
  }

  /** Every input range lies in exactly one output, and outputs are more than `gap` apart. */
  lemma EveryRangeInOne(rs: seq<Range>, gap: nat, i: nat)
    requires Proper(rs) && i < |rs|
    ensures var out := Merged(Sort(rs), gap);
      && Spaced(out, gap) && Covered(rs[i], out)
      && forall j, k | 0 <= j < |out| && 0 <= k < |out| && Inside(rs[i], out[j]) && Inside(rs[i], out[k]) :: j == k
  {
    SortKeeps(rs);
    SortSorted(rs);
    MergedSpaced(Sort(rs), gap);
    assert rs[i] in Sort(rs);
    var j: nat :| j < |Sort(rs)| && Sort(rs)[j] == rs[i];
    MergedCovers(Sort(rs), gap, j);
  }

  /** Outputs end where inputs end, and the bytes read without need stay within `gap` behind an input. */
  lemma OutputsAreTight(rs: seq<Range>, gap: nat)
    requires Proper(rs)
    ensures Tight(Sort(rs), Merged(Sort(rs), gap), gap)
    ensures forall r :: r in Sort(rs) <==> r in rs
  {
    SortKeeps(rs);
    MergedTight(Sort(rs), gap);
  }

  lemma {:induction false} SortedStays(rs: seq<Range>)
    requires Sorted(rs)
    ensures Sort(rs) == rs
  {
    if rs != [] {
      SortedStays(rs[1..]);
      if |rs| > 1 { assert Before(rs[0], rs[1]); }
    }
  }

  lemma AddApart(out: seq<Range>, r: Range, gap: nat)
    requires out != [] ==> out[|out| - 1].1 + gap < r.0
    ensures Add(out, r, gap) == out + [r]
  {
  }

  lemma SpacedFront(rs: seq<Range>, gap: nat)
    requires Spaced(rs, gap) && rs != []
    ensures Spaced(rs[..|rs| - 1], gap)
  {
    var front := rs[..|rs| - 1];
    forall i, j | 0 <= i < j < |front| ensures front[i].1 + gap < front[j].0 { assert rs[i].1 + gap < rs[j].0; }
  }

  lemma {:induction false} SpacedStays(rs: seq<Range>, gap: nat)
    requires Spaced(rs, gap)
    ensures Merged(rs, gap) == rs
  {
    if rs != [] {
      var front, r := rs[..|rs| - 1], rs[|rs| - 1];
      SpacedFront(rs, gap);
      SpacedStays(front, gap);
      AddApart(front, r, gap);
      assert rs == front + [r];
    }
  }

  /** Merging the result again changes nothing. */
  lemma MergeAgain(rs: seq<Range>, gap: nat)
    requires Proper(rs)
    ensures var out := Merged(Sort(rs), gap); Merged(Sort(out), gap) == out
  {
    var out := Merged(Sort(rs), gap);
    SortKeeps(rs);
    SortSorted(rs);
    MergedSpaced(Sort(rs), gap);
    SortedStays(out);
    SpacedStays(out, gap);
  }
}
