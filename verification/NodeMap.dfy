/** Index rebasing of member keys: `crates/opcua-cmd/src/nodemap.rs`.

    The source rewrites keys one depth at a time, deciding per array instance from the keys as they stand after the
    shallower depths. `Walk` is that iteration on parsed paths, `Declared` the simple reading of the documentation: every
    index of an instance that holds element 0 moves up by the declared lower bound, decided on the original keys. */
module NodeMap {
  import opened Wrappers
  import opened Text
  import opened Path

  /** Array path without indices -> declared lower bound, positive ones only. */
  type Bases = map<string, int>

  // ---------------------------------------------------------------- array instances

  function Names(ss: seq<Segment>): (ns: seq<string>)
    ensures |ns| == |ss| && forall i | 0 <= i < |ss| :: ns[i] == ss[i].name
  {
    seq(|ss|, i requires 0 <= i < |ss| => ss[i].name)
  }

  /** `strip_indices` */
  function StripIndices(ss: seq<Segment>): string {
    Join(Names(ss), '.')
  }

  /** Segment `d` of `s` is an element of an array with a known lower bound. */
  predicate InArray(bases: Bases, s: seq<Segment>, d: nat) {
    d < |s| && s[d].indices != [] && StripIndices(s[..d + 1]) in bases
  }

  /** `s` and `t` pass through the same array (or plain member) at depth `d`. */
  predicate SameInstance(s: seq<Segment>, t: seq<Segment>, d: nat) {
    d < |s| && d < |t| && s[..d] == t[..d] && s[d].name == t[d].name
  }

  /** `t` is element 0 of the array that `s` passes through at depth `d`. */
  predicate ZeroElement(s: seq<Segment>, t: seq<Segment>, d: nat) {
    SameInstance(s, t, d) && t[d].indices != [] && t[d].indices[0] == 0
  }

  predicate HoldsZero(all: set<seq<Segment>>, s: seq<Segment>, d: nat) {
    exists t: seq<Segment> | t in all :: ZeroElement(s, t, d)
  }

  /** The instance that `s` passes through at depth `d` is named 0-based. */
  predicate ZeroBased(bases: Bases, all: set<seq<Segment>>, s: seq<Segment>, d: nat) {
    InArray(bases, s, d) && HoldsZero(all, s, d)
  }

  // ---------------------------------------------------------------- one depth

  function BaseAt(bases: Bases, s: seq<Segment>, d: nat): int
    requires InArray(bases, s, d)
  {
    bases[StripIndices(s[..d + 1])]
  }

  function WithFirstIndex(s: Segment, i: nat): Segment
    requires s.indices != []
  {
    s.(indices := s.indices[0 := i])
  }

  /** The index still fits `u32` after moving it up. */
  predicate Shiftable(bases: Bases, s: seq<Segment>, d: nat)
    requires InArray(bases, s, d)
  {
    0 <= s[d].indices[0] + BaseAt(bases, s, d) < U32_END
  }

  predicate Shifts(bases: Bases, all: set<seq<Segment>>, s: seq<Segment>, d: nat) {
    ZeroBased(bases, all, s, d) && Shiftable(bases, s, d)
  }

  /** Segment `d` of `s` once depth `d` has been rebased. */
  function ShiftSegment(bases: Bases, all: set<seq<Segment>>, s: seq<Segment>, d: nat): (g: Segment)
    requires d < |s|
    ensures g.name == s[d].name && |g.indices| == |s[d].indices|
  {
    if Shifts(bases, all, s, d) then WithFirstIndex(s[d], s[d].indices[0] + BaseAt(bases, s, d)) else s[d]
  }

  function Shift(bases: Bases, all: set<seq<Segment>>, s: seq<Segment>, d: nat): (r: seq<Segment>)
    ensures |r| == |s|
    ensures forall k | 0 <= k < |s| && k != d :: r[k] == s[k]
  {
    if d < |s| then s[d := ShiftSegment(bases, all, s, d)] else s
  }

  // ---------------------------------------------------------------- depth after depth

  /** Path `s` after the depths below `n` were rebased, `all` being the paths of the map. */
  function Walk(bases: Bases, all: set<seq<Segment>>, s: seq<Segment>, n: nat): (r: seq<Segment>)
    ensures |r| == |s|
    ensures forall k | n <= k < |s| :: r[k] == s[k]
    decreases n, 0
  {
    if n == 0 then s else Shift(bases, Pass(bases, all, n - 1), Walk(bases, all, s, n - 1), n - 1)
  }

  /** All paths after the depths below `n` were rebased. */
  function Pass(bases: Bases, all: set<seq<Segment>>, n: nat): set<seq<Segment>>
    decreases n, 1
  {
    set s | s in all :: Walk(bases, all, s, n)
  }

  /** The simple reading: each depth on its own, decided on the original paths. */
  function Declared(bases: Bases, all: set<seq<Segment>>, s: seq<Segment>): (r: seq<Segment>)
    ensures |r| == |s|
    ensures forall d | 0 <= d < |s| :: r[d] == ShiftSegment(bases, all, s, d)
  {
    seq(|s|, d requires 0 <= d < |s| => ShiftSegment(bases, all, s, d))
  }

  // ---------------------------------------------------------------- depths below are never touched again

  lemma {:induction false} WalkPrefix(bases: Bases, all: set<seq<Segment>>, s: seq<Segment>, m: nat, n: nat)
    requires m <= n
    ensures Walk(bases, all, s, n)[..if m < |s| then m else |s|] == Walk(bases, all, s, m)[..if m < |s| then m else |s|]
    decreases n
  {
    if m < n { WalkPrefix(bases, all, s, m, n - 1); }
  }

  lemma {:induction false} WalkNames(bases: Bases, all: set<seq<Segment>>, s: seq<Segment>, n: nat)
    ensures Names(Walk(bases, all, s, n)) == Names(s)
    ensures forall k | 0 <= k < |s| :: |Walk(bases, all, s, n)[k].indices| == |s[k].indices|
    decreases n
  {
    if n > 0 { WalkNames(bases, all, s, n - 1); }
  }

  lemma StripSame(s: seq<Segment>, t: seq<Segment>, d: nat)
    requires d < |s| && d < |t|
    requires forall k | 0 <= k <= d :: s[k].name == t[k].name
    ensures StripIndices(s[..d + 1]) == StripIndices(t[..d + 1])
  {
    assert Names(s[..d + 1]) == Names(t[..d + 1]);
  }

  // ---------------------------------------------------------------- rebasing depth by depth is the simple reading

  /** Every index that moves up still fits `u32`. */
  predicate Fits(bases: Bases, all: set<seq<Segment>>) {
    forall s, d: nat | s in all && d < |s| :: ZeroBased(bases, all, s, d) ==> Shiftable(bases, s, d)
  }

  predicate Positive(bases: Bases) {
    forall k | k in bases :: bases[k] > 0
  }

  lemma SameInstanceSameBase(bases: Bases, all: set<seq<Segment>>, s: seq<Segment>, t: seq<Segment>, d: nat)
    requires SameInstance(s, t, d) && s[d].indices != [] && t[d].indices != []
    ensures InArray(bases, s, d) == InArray(bases, t, d)
    ensures HoldsZero(all, s, d) == HoldsZero(all, t, d)
    ensures InArray(bases, s, d) ==> BaseAt(bases, s, d) == BaseAt(bases, t, d)
  {
    forall k | 0 <= k <= d ensures s[k].name == t[k].name {
      if k < d { assert s[k] == s[..d][k] == t[..d][k]; }
    }
    StripSame(s, t, d);
    if u: seq<Segment> :| u in all && ZeroElement(s, u, d) { assert ZeroElement(t, u, d); }
    if u: seq<Segment> :| u in all && ZeroElement(t, u, d) { assert ZeroElement(s, u, d); }
  }

  /** The simple reading keeps different prefixes different. */
  lemma {:induction false} DeclaredPrefixInjective(bases: Bases, all: set<seq<Segment>>, s: seq<Segment>, t: seq<Segment>, n: nat)
    requires Fits(bases, all) && s in all && t in all && n <= |s| && n <= |t|
    requires Declared(bases, all, s)[..n] == Declared(bases, all, t)[..n]
    ensures s[..n] == t[..n]
  {
    if n > 0 {
      var d := n - 1;
      var ds, dt := Declared(bases, all, s), Declared(bases, all, t);
      assert ds[..d] == ds[..n][..d] == dt[..n][..d] == dt[..d];
      DeclaredPrefixInjective(bases, all, s, t, d);
      assert ds[d] == ds[..n][d] == dt[..n][d] == dt[d];
      assert SameInstance(s, t, d);
      if s[d].indices != [] { SameSegmentDeclared(bases, all, s, t, d); }
      assert s[..n] == s[..d] + [s[d]] && t[..n] == t[..d] + [t[d]];
    }
  }

  lemma SameSegmentDeclared(bases: Bases, all: set<seq<Segment>>, s: seq<Segment>, t: seq<Segment>, d: nat)
    requires Fits(bases, all) && s in all && t in all && SameInstance(s, t, d)
    requires s[d].indices != [] && ShiftSegment(bases, all, s, d) == ShiftSegment(bases, all, t, d)
    ensures s[d] == t[d]
  {
    var g := ShiftSegment(bases, all, s, d);
    assert |t[d].indices| == |g.indices| == |s[d].indices|;
    SameInstanceSameBase(bases, all, s, t, d);
    assert ZeroBased(bases, all, s, d) ==> Shiftable(bases, s, d) && Shiftable(bases, t, d);
    if Shifts(bases, all, s, d) {
      var i, j, lb := s[d].indices[0], t[d].indices[0], BaseAt(bases, s, d);
      assert g.indices == s[d].indices[0 := i + lb] && g.indices == t[d].indices[0 := j + lb];
      assert i + lb == g.indices[0] == j + lb;
      assert s[d].indices == g.indices[0 := i] && t[d].indices == g.indices[0 := j];
    }
  }

  lemma DeclaredPrefixSame(bases: Bases, all: set<seq<Segment>>, s: seq<Segment>, t: seq<Segment>, n: nat)
    requires n <= |s| && n <= |t| && s[..n] == t[..n]
    ensures Declared(bases, all, s)[..n] == Declared(bases, all, t)[..n]
  {
    forall d | 0 <= d < n ensures ShiftSegment(bases, all, s, d) == ShiftSegment(bases, all, t, d) {
      assert s[d] == s[..n][d] == t[..n][d] == t[d];
      assert s[..d] == s[..n][..d] == t[..n][..d] == t[..d];
      if s[d].indices != [] { SameInstanceSameBase(bases, all, s, t, d); }
    }
  }

  ghost predicate AgreesBelow(bases: Bases, all: set<seq<Segment>>, d: nat) {
    forall t | t in all :: forall k | 0 <= k < |t| && k < d :: Walk(bases, all, t, d)[k] == Declared(bases, all, t)[k]
  }

  /** After `n` depths the first `n` segments read as declared, the others as before. */
  lemma {:induction false} WalkIsDeclared(bases: Bases, all: set<seq<Segment>>, s: seq<Segment>, n: nat)
    requires Fits(bases, all) && s in all
    ensures forall d | 0 <= d < |s| && d < n :: Walk(bases, all, s, n)[d] == Declared(bases, all, s)[d]
    decreases n
  {
    if n > 0 {
      var d := n - 1;
      forall t | t in all ensures forall k | 0 <= k < |t| && k < d :: Walk(bases, all, t, d)[k] == Declared(bases, all, t)[k] {
        WalkIsDeclared(bases, all, t, d);
      }
      assert AgreesBelow(bases, all, d);
      if d < |s| { ShiftSegmentAgrees(bases, all, s, d); }
    }
  }

  lemma ShiftSegmentAgrees(bases: Bases, all: set<seq<Segment>>, s: seq<Segment>, d: nat)
    requires Fits(bases, all) && s in all && d < |s|
    requires AgreesBelow(bases, all, d)
    ensures ShiftSegment(bases, Pass(bases, all, d), Walk(bases, all, s, d), d) == ShiftSegment(bases, all, s, d)
  {
    var w := Walk(bases, all, s, d);
    WalkStrip(bases, all, s, d, d);
    assert HoldsZero(all, s, d) == HoldsZero(Pass(bases, all, d), w, d) by {
      if HoldsZero(all, s, d) { ZeroSurvives(bases, all, s, d); }
      if HoldsZero(Pass(bases, all, d), w, d) { ZeroWasThere(bases, all, s, d); }
    }
    ShiftSegmentSame(bases, all, Pass(bases, all, d), s, w, d);
  }

  lemma ShiftSegmentSame(bases: Bases, all: set<seq<Segment>>, all': set<seq<Segment>>, s: seq<Segment>, w: seq<Segment>, d: nat)
    requires d < |s| && d < |w| && s[d] == w[d] && StripIndices(s[..d + 1]) == StripIndices(w[..d + 1])
    requires HoldsZero(all, s, d) == HoldsZero(all', w, d)
    ensures ShiftSegment(bases, all, s, d) == ShiftSegment(bases, all', w, d)
  {
  }

  lemma WalkStrip(bases: Bases, all: set<seq<Segment>>, s: seq<Segment>, n: nat, d: nat)
    requires d < |s|
    ensures StripIndices(Walk(bases, all, s, n)[..d + 1]) == StripIndices(s[..d + 1])
  {
    var w := Walk(bases, all, s, n);
    WalkNames(bases, all, s, n);
    forall k | 0 <= k <= d ensures w[k].name == s[k].name { assert Names(w)[k] == Names(s)[k]; }
    StripSame(s, w, d);
  }

  lemma ZeroSurvives(bases: Bases, all: set<seq<Segment>>, s: seq<Segment>, d: nat)
    requires s in all && d < |s| && HoldsZero(all, s, d)
    requires AgreesBelow(bases, all, d)
    ensures HoldsZero(Pass(bases, all, d), Walk(bases, all, s, d), d)
  {
    var t: seq<Segment> :| t in all && ZeroElement(s, t, d);
    DeclaredPrefixSame(bases, all, s, t, d);
    SamePrefixWalk(bases, all, s, t, d);
    assert ZeroElement(Walk(bases, all, s, d), Walk(bases, all, t, d), d);
  }

  lemma ZeroWasThere(bases: Bases, all: set<seq<Segment>>, s: seq<Segment>, d: nat)
    requires Fits(bases, all) && s in all && d < |s| && HoldsZero(Pass(bases, all, d), Walk(bases, all, s, d), d)
    requires AgreesBelow(bases, all, d)
    ensures HoldsZero(all, s, d)
  {
    var w := Walk(bases, all, s, d);
    var u: seq<Segment> :| u in Pass(bases, all, d) && ZeroElement(w, u, d);
    var t: seq<Segment> :| t in all && u == Walk(bases, all, t, d);
    forall k | 0 <= k < d ensures Declared(bases, all, s)[k] == Declared(bases, all, t)[k] {
      assert w[k] == w[..d][k] == u[..d][k] == u[k];
    }
    assert Declared(bases, all, s)[..d] == Declared(bases, all, t)[..d];
    DeclaredPrefixInjective(bases, all, s, t, d);
    assert ZeroElement(s, t, d);
  }

  lemma SamePrefixWalk(bases: Bases, all: set<seq<Segment>>, s: seq<Segment>, t: seq<Segment>, d: nat)
    requires s in all && t in all && SameInstance(s, t, d)
    requires AgreesBelow(bases, all, d)
    requires Declared(bases, all, s)[..d] == Declared(bases, all, t)[..d]
    ensures Walk(bases, all, t, d) in Pass(bases, all, d)
    ensures SameInstance(Walk(bases, all, s, d), Walk(bases, all, t, d), d)
  {
    var w, u := Walk(bases, all, s, d), Walk(bases, all, t, d);
    forall k | 0 <= k < d ensures w[k] == u[k] {
      assert w[k] == Declared(bases, all, s)[..d][k] == Declared(bases, all, t)[..d][k];
    }
    assert w[..d] == u[..d];
  }

  /** Rebasing depth by depth on the keys as they change is the simple reading on the original keys. */
  lemma RebaseIsDeclared(bases: Bases, all: set<seq<Segment>>, s: seq<Segment>, n: nat)
    requires Fits(bases, all) && s in all && |s| <= n
    ensures Walk(bases, all, s, n) == Declared(bases, all, s)
  {
    WalkIsDeclared(bases, all, s, n);
  }

  /** No two elements end up with the same path. */
  lemma RebaseInjective(bases: Bases, all: set<seq<Segment>>, s: seq<Segment>, t: seq<Segment>, n: nat)
    requires Fits(bases, all) && s in all && t in all && |s| <= n && |t| <= n
    requires Walk(bases, all, s, n) == Walk(bases, all, t, n)
    ensures s == t
  {
    RebaseIsDeclared(bases, all, s, n);
    RebaseIsDeclared(bases, all, t, n);
    DeclaredPrefixInjective(bases, all, s, t, |s|);
    assert s == s[..|s|] && t == t[..|t|];
  }

  // ---------------------------------------------------------------- rebasing twice is rebasing once

  /** Nothing is left to rebase: where element 0 is still present, no index could move up. */
  predicate Settled(bases: Bases, all: set<seq<Segment>>) {
    forall s, d: nat | s in all && d < |s| :: !Shifts(bases, all, s, d)
  }

  lemma RebaseSettles(bases: Bases, all: set<seq<Segment>>, n: nat)
    requires Positive(bases) && forall s | s in all :: |s| <= n
    ensures Settled(bases, Pass(bases, all, n))
  {
    forall w, d: nat | w in Pass(bases, all, n) && d < |w| ensures !Shifts(bases, Pass(bases, all, n), w, d) {
      if ZeroBased(bases, Pass(bases, all, n), w, d) {
        var u: seq<Segment> :| u in Pass(bases, all, n) && ZeroElement(w, u, d);
        var t: seq<Segment> :| t in all && u == Walk(bases, all, t, n);
        SameInstanceSameBase(bases, all, w, u, d);
        StillZero(bases, all, t, d, n);
      }
    }
  }

  /** Element 0 of `t` survived depth `d`, so the lower bound there does not fit `u32` and no index moves up. */
  lemma StillZero(bases: Bases, all: set<seq<Segment>>, t: seq<Segment>, d: nat, n: nat)
    requires Positive(bases) && t in all && d < |t| && d < n
    requires InArray(bases, Walk(bases, all, t, n), d) && Walk(bases, all, t, n)[d].indices[0] == 0
    ensures BaseAt(bases, Walk(bases, all, t, n), d) >= U32_END
  {
    var u, u0 := Walk(bases, all, t, n), Walk(bases, all, t, d);
    WalkStrip(bases, all, t, n, d);
    WalkStrip(bases, all, t, d, d);
    WalkPrefix(bases, all, t, d + 1, n);
    assert u[d] == u[..d + 1][d] == Walk(bases, all, t, d + 1)[..d + 1][d];
    assert u[d] == ShiftSegment(bases, Pass(bases, all, d), u0, d);
    assert u0 in Pass(bases, all, d);
    if u0[d].indices[0] == 0 { assert ZeroElement(u0, u0, d); }
  }

  lemma {:induction false} SettledWalk(bases: Bases, all: set<seq<Segment>>, some: set<seq<Segment>>, s: seq<Segment>, n: nat)
    requires Settled(bases, all) && some <= all && s in some
    ensures Walk(bases, some, s, n) == s
    decreases n
  {
    if n > 0 {
      var d := n - 1;
      forall t | t in some ensures Walk(bases, some, t, d) == t { SettledWalk(bases, all, some, t, d); }
      assert Pass(bases, some, d) == some;
      if d < |s| && Shifts(bases, some, s, d) {
        assert HoldsZero(all, s, d);
        assert Shifts(bases, all, s, d);
      }
    }
  }
}
