/** How the S7-1500 server (and `apps/gr-console/src/sim_opcua.rs`, which mimics it) names the members of a layout, and why
    rebasing the browsed names with the lower bounds of the layout gives the PLC paths back. */
module SimOpcua {
  import opened Wrappers
  import opened Text
  import opened Path
  import opened NodeMap

  // ---------------------------------------------------------------- lower bounds

  predicate IsElement(s: seq<Segment>, d: nat) {
    d < |s| && s[d].indices != []
  }

  /** `t` is an element of the array instance that `s` passes through at depth `d`. */
  predicate Sibling(s: seq<Segment>, t: seq<Segment>, d: nat) {
    SameInstance(s, t, d) && t[d].indices != []
  }

  /** The indices present in the array instance that `s` passes through at depth `d`. */
  function IndicesAt(all: set<seq<Segment>>, s: seq<Segment>, d: nat): set<nat> {
    set t: seq<Segment> | t in all && Sibling(s, t, d) :: t[d].indices[0]
  }

  /** The smallest member of `ix` from `n` on, `hi` at most. */
  function Least(ix: set<nat>, n: nat, hi: nat): (r: nat)
    requires n <= hi
    ensures n <= r <= hi
    decreases hi - n
  {
    if n in ix || n == hi then n else Least(ix, n + 1, hi)
  }

  lemma {:induction false} LeastIsLeast(ix: set<nat>, n: nat, hi: nat)
    requires n <= hi && hi in ix
    ensures Least(ix, n, hi) in ix && forall i | n <= i < Least(ix, n, hi) :: i !in ix
    decreases hi - n
  {
    if n !in ix { LeastIsLeast(ix, n + 1, hi); }
  }

  /** The smallest index of the array instance that `s` passes through at depth `d`. */
  function Low(all: set<seq<Segment>>, s: seq<Segment>, d: nat): (lb: nat)
    requires IsElement(s, d)
    ensures lb <= s[d].indices[0]
  {
    Least(IndicesAt(all, s, d), 0, s[d].indices[0])
  }

  /** The element that has the smallest index of the instance. */
  lemma LowWitness(all: set<seq<Segment>>, s: seq<Segment>, d: nat) returns (t: seq<Segment>)
    requires s in all && IsElement(s, d)
    ensures t in all && Sibling(s, t, d) && t[d].indices[0] == Low(all, s, d)
  {
    assert Sibling(s, s, d);
    LeastIsLeast(IndicesAt(all, s, d), 0, s[d].indices[0]);
    t :| t in all && Sibling(s, t, d) && t[d].indices[0] == Low(all, s, d);
  }

  lemma LowIsLow(all: set<seq<Segment>>, s: seq<Segment>, d: nat, t: seq<Segment>)
    requires s in all && IsElement(s, d) && t in all && Sibling(s, t, d)
    ensures Low(all, s, d) <= t[d].indices[0]
  {
    assert Sibling(s, s, d);
    LeastIsLeast(IndicesAt(all, s, d), 0, s[d].indices[0]);
    assert t[d].indices[0] in IndicesAt(all, s, d);
  }

  lemma LowOfSibling(all: set<seq<Segment>>, s: seq<Segment>, t: seq<Segment>, d: nat)
    requires s in all && t in all && IsElement(s, d) && Sibling(s, t, d)
    ensures Low(all, s, d) == Low(all, t, d)
  {
    var a := LowWitness(all, s, d);
    var b := LowWitness(all, t, d);
    LowIsLow(all, t, d, a);
    LowIsLow(all, s, d, b);
  }

  // ---------------------------------------------------------------- the server's names

  /** The layout has no array of more than one dimension. */
  ghost predicate OneDimensional(all: set<seq<Segment>>) {
    forall s: seq<Segment>, d: nat | s in all && d < |s| :: |s[d].indices| <= 1
  }

  function ServerSegment(all: set<seq<Segment>>, s: seq<Segment>, d: nat): (g: Segment)
    requires d < |s|
    ensures g.name == s[d].name && |g.indices| == |s[d].indices|
  {
    if s[d].indices == [] then s[d] else WithFirstIndex(s[d], s[d].indices[0] - Low(all, s, d))
  }

  /** Every array index counted from the smallest one of its instance. */
  function ServerPath(all: set<seq<Segment>>, s: seq<Segment>): (r: seq<Segment>)
    ensures |r| == |s| && forall d | 0 <= d < |s| :: r[d] == ServerSegment(all, s, d)
  {
    seq(|s|, d requires 0 <= d < |s| => ServerSegment(all, s, d))
  }

  function ServerPaths(all: set<seq<Segment>>): set<seq<Segment>> {
    set s | s in all :: ServerPath(all, s)
  }

  lemma {:induction false} ServerPrefixInjective(all: set<seq<Segment>>, s: seq<Segment>, t: seq<Segment>, n: nat)
    requires s in all && t in all && n <= |s| && n <= |t|
    requires ServerPath(all, s)[..n] == ServerPath(all, t)[..n]
    ensures s[..n] == t[..n]
  {
    if n > 0 {
      var d := n - 1;
      var a, b := ServerPath(all, s), ServerPath(all, t);
      assert a[..d] == a[..n][..d] == b[..n][..d] == b[..d];
      ServerPrefixInjective(all, s, t, d);
      assert a[d] == a[..n][d] == b[..n][d] == b[d];
      SameServerSegment(all, s, t, d);
      assert s[..n] == s[..d] + [s[d]] && t[..n] == t[..d] + [t[d]];
    }
  }

  lemma SameServerSegment(all: set<seq<Segment>>, s: seq<Segment>, t: seq<Segment>, d: nat)
    requires s in all && t in all && d < |s| && d < |t| && s[..d] == t[..d]
    requires ServerSegment(all, s, d) == ServerSegment(all, t, d)
    ensures s[d] == t[d]
  {
    var g := ServerSegment(all, s, d);
    if s[d].indices != [] {
      assert |t[d].indices| == |g.indices| == |s[d].indices|;
      assert Sibling(s, t, d);
      LowOfSibling(all, s, t, d);
      var i, j, lb := s[d].indices[0], t[d].indices[0], Low(all, s, d);
      assert i - lb == g.indices[0] == j - lb;
      assert s[d].indices == g.indices[0 := i] && t[d].indices == g.indices[0 := j];
    }
  }

  lemma ServerPrefixSame(all: set<seq<Segment>>, s: seq<Segment>, t: seq<Segment>, n: nat)
    requires s in all && t in all && n <= |s| && n <= |t| && s[..n] == t[..n]
    ensures ServerPath(all, s)[..n] == ServerPath(all, t)[..n]
  {
    forall d | 0 <= d < n ensures ServerSegment(all, s, d) == ServerSegment(all, t, d) {
      assert s[d] == s[..n][d] == t[..n][d] == t[d];
      assert s[..d] == s[..n][..d] == t[..n][..d] == t[..d];
      if s[d].indices != [] {
        assert Sibling(s, t, d);
        LowOfSibling(all, s, t, d);
      }
    }
  }

  // ---------------------------------------------------------------- declared lower bounds of the whole layout

  /** The key under which the lower bound of the array at depth `d` is kept. */
  function ArrayKey(s: seq<Segment>, d: nat): string
    requires d < |s|
  {
    StripIndices(s[..d + 1])
  }

  /** `bases` is what `array_bases_from_paths` computes from `all`: per array path without indices, the smallest index. */
  ghost predicate IsBases(all: set<seq<Segment>>, bases: Bases) {
    && (forall s: seq<Segment>, d: nat | s in all && IsElement(s, d) :: ArrayKey(s, d) in bases && bases[ArrayKey(s, d)] <= s[d].indices[0])
    && (forall k | k in bases :: SmallestSeen(all, k, bases[k]))
  }

  ghost predicate SmallestSeen(all: set<seq<Segment>>, k: string, lb: int) {
    exists s: seq<Segment>, d: nat :: s in all && IsElement(s, d) && ArrayKey(s, d) == k && s[d].indices[0] == lb
  }

  function PositiveOnly(bases: Bases): (r: Bases)
    ensures Positive(r)
  {
    map k | k in bases && bases[k] > 0 :: bases[k]
  }

  /** All instances of an array have the same lower bound. */
  ghost predicate SharedBounds(all: set<seq<Segment>>, bases: Bases)
    requires IsBases(all, bases)
  {
    forall s: seq<Segment>, d: nat | s in all && IsElement(s, d) :: Low(all, s, d) == bases[ArrayKey(s, d)]
  }

  lemma ServerArrayKey(all: set<seq<Segment>>, s: seq<Segment>, d: nat)
    requires s in all && d < |s|
    ensures ArrayKey(ServerPath(all, s), d) == ArrayKey(s, d)
  {
    StripSame(s, ServerPath(all, s), d);
  }

  lemma SiblingArrayKey(s: seq<Segment>, t: seq<Segment>, d: nat)
    requires SameInstance(s, t, d)
    ensures ArrayKey(s, d) == ArrayKey(t, d)
  {
    forall k | 0 <= k <= d ensures s[k].name == t[k].name {
      if k < d { assert s[k] == s[..d][k] == t[..d][k]; }
    }
    StripSame(s, t, d);
  }

  /** In the server's names every array instance holds element 0. */
  lemma ServerHoldsZero(all: set<seq<Segment>>, s: seq<Segment>, d: nat)
    requires s in all && IsElement(s, d)
    ensures HoldsZero(ServerPaths(all), ServerPath(all, s), d)
  {
    var t := LowWitness(all, s, d);
    LowOfSibling(all, s, t, d);
    ServerPrefixSame(all, s, t, d);
    var u := ServerPath(all, t);
    assert u[d].indices[0] == 0;
    assert u in ServerPaths(all) && ZeroElement(ServerPath(all, s), u, d);
  }

  lemma BaseBelowLow(all: set<seq<Segment>>, bases: Bases, s: seq<Segment>, d: nat)
    requires IsBases(all, bases) && s in all && IsElement(s, d)
    ensures 0 <= bases[ArrayKey(s, d)] <= Low(all, s, d)
  {
    var t := LowWitness(all, s, d);
    SiblingArrayKey(s, t, d);
    assert IsElement(t, d);
    assert SmallestSeen(all, ArrayKey(s, d), bases[ArrayKey(s, d)]);
  }

  /** The index that rebasing gives the server name of `s` at depth `d`: the offset in the instance plus the lower bound
      of the array. */
  function RebasedIndex(all: set<seq<Segment>>, bases: Bases, s: seq<Segment>, d: nat): int
    requires IsElement(s, d) && ArrayKey(s, d) in bases
  {
    s[d].indices[0] - Low(all, s, d) + bases[ArrayKey(s, d)]
  }

  /** In `names`, the server name of `s` is an element of a 0-based instance exactly when its array's lower bound is
      positive. */
  predicate CountsFromZero(all: set<seq<Segment>>, bases: Bases, names: set<seq<Segment>>, s: seq<Segment>, d: nat)
    requires IsElement(s, d) && ArrayKey(s, d) in bases
  {
    var w := ServerPath(all, s);
    && (ZeroBased(PositiveOnly(bases), names, w, d) <==> bases[ArrayKey(s, d)] > 0)
    && (InArray(PositiveOnly(bases), w, d) ==> BaseAt(PositiveOnly(bases), w, d) == bases[ArrayKey(s, d)])
  }

  lemma ServerElement(all: set<seq<Segment>>, bases: Bases, s: seq<Segment>, d: nat)
    requires IsBases(all, bases) && s in all && IsElement(s, d) && s[d].indices[0] < U32_END
    ensures 0 <= RebasedIndex(all, bases, s, d) < U32_END && bases[ArrayKey(s, d)] >= 0
    ensures CountsFromZero(all, bases, ServerPaths(all), s, d)
  {
    ServerArrayKey(all, s, d);
    BaseBelowLow(all, bases, s, d);
    ServerHoldsZero(all, s, d);
  }

  lemma RebasedServerSegment(all: set<seq<Segment>>, bases: Bases, names: set<seq<Segment>>, s: seq<Segment>, d: nat)
    requires IsElement(s, d) && ArrayKey(s, d) in bases && bases[ArrayKey(s, d)] >= 0
    requires CountsFromZero(all, bases, names, s, d) && 0 <= RebasedIndex(all, bases, s, d) < U32_END
    ensures ShiftSegment(PositiveOnly(bases), names, ServerPath(all, s), d)
         == WithFirstIndex(s[d], RebasedIndex(all, bases, s, d))
  {
    ShiftedAgain(PositiveOnly(bases), names, ServerPath(all, s), d, s[d], s[d].indices[0] - Low(all, s, d),
                 RebasedIndex(all, bases, s, d));
  }

  /** Rewriting an index that was already rewritten leaves only the second value. */
  lemma ShiftedAgain(bases: Bases, names: set<seq<Segment>>, w: seq<Segment>, d: nat, g: Segment, i: nat, j: nat)
    requires d < |w| && g.indices != [] && w[d] == WithFirstIndex(g, i) && j < U32_END
    requires ZeroBased(bases, names, w, d) ==> j == i + BaseAt(bases, w, d)
    requires !ZeroBased(bases, names, w, d) ==> j == i
    ensures ShiftSegment(bases, names, w, d) == WithFirstIndex(g, j)
  {
    assert g.indices[0 := i][0 := j] == g.indices[0 := j];
  }

  // ---------------------------------------------------------------- the round trip

  /** Rebasing the server's names gives every layout path back, at any nesting depth, exactly when all instances of each
      array share their lower bound. */
  lemma ServerNamesRebase(all: set<seq<Segment>>, bases: Bases, n: nat)
    requires IsBases(all, bases) && forall s | s in all :: WfPath(s) && |s| <= n
    ensures (forall s | s in all :: Walk(PositiveOnly(bases), ServerPaths(all), ServerPath(all, s), n) == s)
       <==> SharedBounds(all, bases)
  {
    var positive, names := PositiveOnly(bases), ServerPaths(all);
    ServerNamesFit(all, bases);
    forall s | s in all
      ensures Walk(positive, names, ServerPath(all, s), n) == Declared(positive, names, ServerPath(all, s))
    {
      RebaseIsDeclared(positive, names, ServerPath(all, s), n);
    }
    if SharedBounds(all, bases) {
      forall s | s in all ensures Declared(positive, names, ServerPath(all, s)) == s { SharedDeclared(all, bases, s); }
    }
    if forall s | s in all :: Declared(positive, names, ServerPath(all, s)) == s {
      forall s: seq<Segment>, d: nat | s in all && IsElement(s, d) ensures Low(all, s, d) == bases[ArrayKey(s, d)] {
        DeclaredShared(all, bases, s, d);
      }
    }
  }

  /** Depth by depth: an element returns under its offset in the instance plus the lower bound of the whole array. */
  lemma RebasedName(all: set<seq<Segment>>, bases: Bases, s: seq<Segment>, n: nat, d: nat)
    requires IsBases(all, bases) && (forall t | t in all :: WfPath(t)) && s in all && d < |s| <= n
    ensures |Walk(PositiveOnly(bases), ServerPaths(all), ServerPath(all, s), n)| == |s|
    ensures IsElement(s, d) ==> ArrayKey(s, d) in bases && 0 <= RebasedIndex(all, bases, s, d)
    ensures Walk(PositiveOnly(bases), ServerPaths(all), ServerPath(all, s), n)[d]
         == if IsElement(s, d) then WithFirstIndex(s[d], RebasedIndex(all, bases, s, d)) else s[d]
  {
    ServerNamesFit(all, bases);
    RebaseIsDeclared(PositiveOnly(bases), ServerPaths(all), ServerPath(all, s), n);
    if IsElement(s, d) {
      WfIndex(s, d);
      ServerElement(all, bases, s, d);
      RebasedServerSegment(all, bases, ServerPaths(all), s, d);
    }
  }

  /** `A[1].B[1]` and `A[2].B[5]`. */
  predicate IsExample(all: set<seq<Segment>>, s: seq<Segment>, t: seq<Segment>) {
    s == [Segment("A", [1]), Segment("B", [1])] && t == [Segment("A", [2]), Segment("B", [5])] && all == {s, t}
  }

  lemma ExampleBases(all: set<seq<Segment>>, s: seq<Segment>, t: seq<Segment>, bases: Bases)
    requires IsExample(all, s, t) && bases == map[ArrayKey(s, 0) := 1, ArrayKey(s, 1) := 1]
    ensures IsBases(all, bases) && ArrayKey(t, 0) in bases && ArrayKey(t, 1) in bases
  {
    StripSame(s, t, 0);
    StripSame(s, t, 1);
    forall u: seq<Segment>, d: nat | u in all && IsElement(u, d) ensures ArrayKey(u, d) in bases && bases[ArrayKey(u, d)] <= u[d].indices[0] {
      assert d == 0 || d == 1;
    }
    forall k | k in bases ensures SmallestSeen(all, k, bases[k]) {
      var d := if k == ArrayKey(s, 0) then 0 else 1;
      assert s in all && IsElement(s, d) && ArrayKey(s, d) == k && s[d].indices[0] == 1;
    }
  }

  lemma ExampleLows(all: set<seq<Segment>>, s: seq<Segment>, t: seq<Segment>)
    requires IsExample(all, s, t)
    ensures Low(all, t, 0) == 1 && Low(all, t, 1) == 5
  {
    var a := LowWitness(all, t, 0);
    assert s[..0] == t[..0];
    LowIsLow(all, t, 0, s);
    var b := LowWitness(all, t, 1);
    assert s[..1][0] != t[..1][0];
  }

  lemma ExampleWf(all: set<seq<Segment>>, s: seq<Segment>, t: seq<Segment>)
    requires IsExample(all, s, t)
    ensures forall u | u in all :: WfPath(u)
  {
    assert WfName("A") && WfName("B");
    assert FitU32([1]) && FitU32([2]) && FitU32([5]);
  }

  /** The second instance of `B` begins at 5, but the array is known to begin at 1: the element comes back as `A[2].B[1]`. */
  lemma UnequalBoundsAreLost(all: set<seq<Segment>>, s: seq<Segment>, t: seq<Segment>, bases: Bases, n: nat)
    requires IsExample(all, s, t) && bases == map[ArrayKey(s, 0) := 1, ArrayKey(s, 1) := 1] && 2 <= n
    ensures IsBases(all, bases)
    ensures Walk(PositiveOnly(bases), ServerPaths(all), ServerPath(all, t), n) == [Segment("A", [2]), Segment("B", [1])]
  {
    ExampleBases(all, s, t, bases);
    ExampleLows(all, s, t);
    ExampleWf(all, s, t);
    SecondInstance(all, bases, t);
    RebasedName(all, bases, t, n, 0);
    RebasedName(all, bases, t, n, 1);
  }

  lemma SecondInstance(all: set<seq<Segment>>, bases: Bases, t: seq<Segment>)
    requires t == [Segment("A", [2]), Segment("B", [5])] && Low(all, t, 0) == 1 && Low(all, t, 1) == 5
    requires forall d | 0 <= d < 2 :: ArrayKey(t, d) in bases && bases[ArrayKey(t, d)] == 1
    ensures RebasedIndex(all, bases, t, 0) == 2 && RebasedIndex(all, bases, t, 1) == 1
    ensures WithFirstIndex(t[0], 2) == t[0] && WithFirstIndex(t[1], 1) == Segment("B", [1])
  {
    assert IsElement(t, 0) && IsElement(t, 1);
    assert [2][0 := 2] == [2] && [5][0 := 1] == [1];
  }

  lemma DeclaredShared(all: set<seq<Segment>>, bases: Bases, s: seq<Segment>, d: nat)
    requires IsBases(all, bases) && s in all && WfPath(s) && IsElement(s, d)
    requires Declared(PositiveOnly(bases), ServerPaths(all), ServerPath(all, s)) == s
    ensures Low(all, s, d) == bases[ArrayKey(s, d)]
  {
    WfIndex(s, d);
    ServerElement(all, bases, s, d);
    RebasedServerSegment(all, bases, ServerPaths(all), s, d);
    assert Declared(PositiveOnly(bases), ServerPaths(all), ServerPath(all, s))[d] == s[d];
    assert s[d].indices[0] == RebasedIndex(all, bases, s, d);
  }

  lemma SharedDeclared(all: set<seq<Segment>>, bases: Bases, s: seq<Segment>)
    requires IsBases(all, bases) && s in all && WfPath(s) && SharedBounds(all, bases)
    ensures Declared(PositiveOnly(bases), ServerPaths(all), ServerPath(all, s)) == s
  {
    forall d | 0 <= d < |s| ensures ShiftSegment(PositiveOnly(bases), ServerPaths(all), ServerPath(all, s), d) == s[d] {
      SharedSegment(all, bases, s, d);
    }
  }

  lemma SharedSegment(all: set<seq<Segment>>, bases: Bases, s: seq<Segment>, d: nat)
    requires IsBases(all, bases) && s in all && WfPath(s) && SharedBounds(all, bases) && d < |s|
    ensures ShiftSegment(PositiveOnly(bases), ServerPaths(all), ServerPath(all, s), d) == s[d]
  {
    if IsElement(s, d) {
      WfIndex(s, d);
      ServerElement(all, bases, s, d);
      RebasedServerSegment(all, bases, ServerPaths(all), s, d);
      assert RebasedIndex(all, bases, s, d) == s[d].indices[0];
      assert s[d].indices[0 := s[d].indices[0]] == s[d].indices;
    }
  }

  lemma WfIndex(s: seq<Segment>, d: nat)
    requires WfPath(s) && IsElement(s, d)
    ensures s[d].indices[0] < U32_END
  {
    assert s[d] in s;
  }

  lemma ServerNamesFit(all: set<seq<Segment>>, bases: Bases)
    requires IsBases(all, bases) && forall s | s in all :: WfPath(s)
    ensures Fits(PositiveOnly(bases), ServerPaths(all))
  {
    forall w: seq<Segment>, d: nat | w in ServerPaths(all) && d < |w| && ZeroBased(PositiveOnly(bases), ServerPaths(all), w, d)
      ensures Shiftable(PositiveOnly(bases), w, d)
    {
      var s: seq<Segment> :| s in all && w == ServerPath(all, s);
      assert |w[d].indices| == |s[d].indices|;
      WfIndex(s, d);
      ServerElement(all, bases, s, d);
      assert w[d].indices[0] == s[d].indices[0] - Low(all, s, d);
    }
  }
}
