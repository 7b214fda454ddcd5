/** What the documentation promises of `rebase_array_keys` on whole maps: `crates/opcua-cmd/src/nodemap.rs:162-174`. */
module RebaseLaws {
  import opened Wrappers
  import opened Text
  import opened Path
  import opened NodeMap
  import opened Rebase

  // ---------------------------------------------------------------- maps as entry lists

  ghost predicate DistinctKeys<V>(m: seq<(string, V)>) {
    forall i, j | 0 <= i < j < |m| :: m[i].0 != m[j].0
  }

  /** `m` lists the entries of `out`, each key once. */
  ghost predicate Lists<V>(m: seq<(string, V)>, out: map<string, V>) {
    && DistinctKeys(m)
    && (forall i | 0 <= i < |m| :: m[i].0 in out && out[m[i].0] == m[i].1)
    && forall k | k in out :: exists i | 0 <= i < |m| :: m[i].0 == k
  }

  predicate EntryAt<V(==)>(es: seq<Entry<V>>, i: nat, k: string, v: V) {
    i < |es| && es[i].key == k && es[i].value == v
  }

  lemma {:induction false} CollectMapKeys<V>(es: seq<Entry<V>>, k: string) returns (i: nat)
    requires k in CollectMap(es)
    ensures EntryAt(es, i, k, CollectMap(es)[k])
  {
    var init := es[..|es| - 1];
    if k == es[|es| - 1].key {
      i := |es| - 1;
    } else {
      i := CollectMapKeys(init, k);
      assert es[i] == init[i];
    }
  }

  lemma {:induction false} CollectMapHas<V>(es: seq<Entry<V>>, i: nat)
    requires forall i, j | 0 <= i < j < |es| :: es[i].key != es[j].key
    requires i < |es|
    ensures es[i].key in CollectMap(es) && CollectMap(es)[es[i].key] == es[i].value
  {
    var init := es[..|es| - 1];
    if i < |init| {
      assert es[i].key != es[|es| - 1].key;
      CollectMapHas(init, i);
      assert init[i] == es[i];
    }
  }

  lemma KeyIsListed<V>(es: seq<Entry<V>>, k: string)
    ensures k in CollectMap(es) ==> exists i :: 0 <= i < |es| && es[i].key == k
  {
    if k in CollectMap(es) { var i := CollectMapKeys(es, k); }
  }

  lemma {:induction false} CollectMapSize<V>(es: seq<Entry<V>>)
    requires forall i, j | 0 <= i < j < |es| :: es[i].key != es[j].key
    ensures |CollectMap(es)| == |es|
  {
    if es != [] {
      var init, last := es[..|es| - 1], es[|es| - 1];
      CollectMapSize(init);
      forall i | 0 <= i < |init| ensures init[i].key != last.key { assert es[i].key != es[|es| - 1].key; }
      KeyIsListed(init, last.key);
      assert CollectMap(es).Keys == CollectMap(init).Keys + {last.key};
    }
  }

  // ---------------------------------------------------------------- no element is lost, each value follows its element

  /** The keys a node map holds: canonical ones, and possibly some that are no path at all. */
  ghost predicate Tame<V>(m: seq<(string, V)>) {
    forall i | 0 <= i < |m| :: Canonical(m[i].0) || ParsePath(m[i].0).Err?
  }

  /** The key of entry `i` by the simple reading. */
  function NewKey<V>(bases: Bases, m: seq<(string, V)>, i: nat): string
    requires i < |m|
  {
    match ParsedKey(m[i].0)
    case None => m[i].0
    case Some(s) => Render(Declared(bases, Paths(Entries(m)), s))
  }

  lemma EntryKey<V>(bases: Bases, m: seq<(string, V)>, i: nat)
    requires i < |m| && Tame(m) && Fits(bases, Paths(Entries(m)))
    ensures var es := Entries(m);
      EntriesAfter(bases, es, Depth(es))[i].key == NewKey(bases, m, i)
  {
    var es := Entries(m);
    if es[i].segs.Some? {
      var s := es[i].segs.value;
      assert s in Paths(es);
      RebaseIsDeclared(bases, Paths(es), s, Depth(es));
      assert m[i].0 == Render(s);
    }
  }

  lemma NewKeysDiffer<V>(bases: Bases, m: seq<(string, V)>, i: nat, j: nat)
    requires i < |m| && j < |m| && Tame(m) && Fits(bases, Paths(Entries(m)))
    requires NewKey(bases, m, i) == NewKey(bases, m, j)
    ensures m[i].0 == m[j].0
  {
    var es := Entries(m);
    var all := Paths(es);
    EntriesWf(m);
    forall k | k in {i, j} && es[k].segs.Some?
      ensures Walk(bases, all, es[k].segs.value, Depth(es)) == Declared(bases, all, es[k].segs.value)
      ensures ParsePath(NewKey(bases, m, k)) == Ok(Declared(bases, all, es[k].segs.value))
    {
      assert es[k].segs.value in all;
      RebaseIsDeclared(bases, all, es[k].segs.value, Depth(es));
      WalkWf(bases, all, es[k].segs.value, Depth(es));
      ParseRender(Declared(bases, all, es[k].segs.value));
    }
    if es[i].segs.Some? && es[j].segs.Some? {
      RebaseInjective(bases, all, es[i].segs.value, es[j].segs.value, Depth(es));
      assert m[i].0 == Render(es[i].segs.value) && m[j].0 == Render(es[j].segs.value);
    }
  }

  /** The rewritten map is as large as the one before, and every value sits under its element's new key. */
  lemma RebaseKeepsElements<V>(bases: Bases, m: seq<(string, V)>)
    requires DistinctKeys(m) && Tame(m) && Fits(bases, Paths(Entries(m)))
    ensures |Rebased(bases, m)| == |m|
    ensures forall i: nat | i < |m| :: NewKey(bases, m, i) in Rebased(bases, m) && Rebased(bases, m)[NewKey(bases, m, i)] == m[i].1
  {
    var es := Entries(m);
    var after := EntriesAfter(bases, es, Depth(es));
    forall i: nat | i < |m| ensures after[i].key == NewKey(bases, m, i) { EntryKey(bases, m, i); }
    forall i, j | 0 <= i < j < |m| ensures after[i].key != after[j].key {
      if after[i].key == after[j].key { NewKeysDiffer(bases, m, i, j); }
    }
    CollectMapSize(after);
    forall i: nat | i < |m|
      ensures NewKey(bases, m, i) in Rebased(bases, m) && Rebased(bases, m)[NewKey(bases, m, i)] == m[i].1
    {
      CollectMapHas(after, i);
    }
  }

  // ---------------------------------------------------------------- idempotence, for every map

  /** Rebasing the rewritten map changes nothing, whatever the keys and lower bounds are. */
  lemma RebaseIdempotent<V>(bases: Bases, m: seq<(string, V)>, again: seq<(string, V)>)
    requires Positive(bases) && Lists(again, Rebased(bases, m))
    ensures Rebased(bases, again) == Rebased(bases, m)
    ensures TotalMoves(bases, Paths(Entries(again)), Entries(again), Depth(Entries(again))) == 0
  {
    var es := Entries(m);
    var all := Paths(es);
    var settled := Pass(bases, all, Depth(es));
    var es2 := Entries(again);
    var some := Paths(es2);
    RebaseSettles(bases, all, Depth(es));
    forall s | s in some ensures s in settled {
      var i :| 0 <= i < |es2| && es2[i].segs == Some(s);
      RebasedKeyParses(bases, m, again[i].0);
    }
    SettledEntries(bases, settled, some, es2, Depth(es2));
    assert EntriesAfter(bases, es2, Depth(es2)) == es2;
    CollectListed(again, Rebased(bases, m));
  }

  /** A key of the rewritten map that parses gives one of the walked paths. */
  lemma RebasedKeyParses<V>(bases: Bases, m: seq<(string, V)>, key: string)
    requires key in Rebased(bases, m) && ParsedKey(key).Some?
    ensures ParsedKey(key).value in Pass(bases, Paths(Entries(m)), Depth(Entries(m)))
  {
    var es := Entries(m);
    var after := EntriesAfter(bases, es, Depth(es));
    var i := CollectMapKeys(after, key);
    if es[i].segs.Some? {
      ParsePathWf(m[i].0);
      assert es[i].segs.value in Paths(es);
      WalkKeyParses(bases, Paths(es), es[i].segs.value, Depth(es));
      UnchangedKey(bases, m, i);
    }
  }

  /** A path that the rewriting leaves keeps its key as it was spelled. */
  lemma UnchangedKey<V>(bases: Bases, m: seq<(string, V)>, i: nat)
    requires i < |m| && ParsedKey(m[i].0).Some?
    ensures var es := Entries(m); var s := ParsedKey(m[i].0).value; var w := Walk(bases, Paths(es), s, Depth(es));
      EntriesAfter(bases, es, Depth(es))[i].key == if w == s then m[i].0 else Render(w)
  {
  }

  lemma WalkKeyParses(bases: Bases, all: set<seq<Segment>>, s: seq<Segment>, n: nat)
    requires WfPath(s)
    ensures ParsedKey(Render(Walk(bases, all, s, n))) == Some(Walk(bases, all, s, n))
  {
    WalkWf(bases, all, s, n);
    ParseRender(Walk(bases, all, s, n));
  }

  lemma {:induction false} SettledEntries<V>(bases: Bases, settled: set<seq<Segment>>, some: set<seq<Segment>>, es: seq<Entry<V>>, n: nat)
    requires Settled(bases, settled) && some <= settled && Paths(es) <= some
    ensures forall i | 0 <= i < |es| && es[i].segs.Some? :: Walk(bases, some, es[i].segs.value, n) == es[i].segs.value
    ensures TotalMoves(bases, some, es, n) == 0
  {
    forall i | 0 <= i < |es| && es[i].segs.Some?
      ensures Walk(bases, some, es[i].segs.value, n) == es[i].segs.value
    {
      assert es[i].segs.value in Paths(es);
      SettledWalk(bases, settled, some, es[i].segs.value, n);
    }
    if es != [] {
      var init, last := es[..|es| - 1], es[|es| - 1];
      assert Paths(init) <= Paths(es);
      SettledEntries(bases, settled, some, init, n);
      if last.segs.Some? {
        assert es[|es| - 1].segs.value in Paths(es);
        SettledMoves(bases, settled, some, last.segs.value, n);
      }
    }
  }

  lemma {:induction false} SettledMoves(bases: Bases, settled: set<seq<Segment>>, some: set<seq<Segment>>, s: seq<Segment>, n: nat)
    requires Settled(bases, settled) && some <= settled && s in some
    ensures Moves(bases, some, s, n) == 0
  {
    if n > 0 {
      var d := n - 1;
      SettledMoves(bases, settled, some, s, d);
      forall t | t in some ensures Walk(bases, some, t, d) == t { SettledWalk(bases, settled, some, t, d); }
      assert Pass(bases, some, d) == some;
      if Shifts(bases, some, s, d) {
        assert HoldsZero(settled, s, d);
        assert Shifts(bases, settled, s, d);
      }
    }
  }

  lemma CollectListed<V>(m: seq<(string, V)>, out: map<string, V>)
    requires Lists(m, out)
    ensures CollectMap(Entries(m)) == out
  {
    var es := Entries(m);
    forall i: nat | i < |m| ensures m[i].0 in CollectMap(es) && CollectMap(es)[m[i].0] == m[i].1 { CollectMapHas(es, i); }
    assert forall k | k in out :: k in CollectMap(es) && CollectMap(es)[k] == out[k];
    forall k | k in CollectMap(es) ensures k in out { CollectedIsListed(m, k); }
  }

  lemma CollectedIsListed<V>(m: seq<(string, V)>, k: string)
    requires k in CollectMap(Entries(m))
    ensures exists i: nat :: i < |m| && m[i].0 == k
  {
    var i := CollectMapKeys(Entries(m), k);
    assert m[i].0 == k;
  }

  // ---------------------------------------------------------------- when an index does not fit

  /** At one depth two paths become the same exactly when an index of a 0-based instance moves onto one that stays,
      because that one would no longer fit `u32`. */
  lemma ShiftClash(bases: Bases, all: set<seq<Segment>>, s: seq<Segment>, t: seq<Segment>, d: nat)
    requires Positive(bases) && s != t
    ensures Shift(bases, all, s, d) == Shift(bases, all, t, d) <==> Clash(bases, all, s, t, d) || Clash(bases, all, t, s, d)
  {
    if Shift(bases, all, s, d) == Shift(bases, all, t, d) {
      assert |s| == |t|;
      assert d < |s|;
      ClashFromEqual(bases, all, s, t, d);
    }
  }

  /** `s` moves onto `t`, which stays. */
  predicate Clash(bases: Bases, all: set<seq<Segment>>, s: seq<Segment>, t: seq<Segment>, d: nat) {
    && Shifts(bases, all, s, d)
    && InArray(bases, t, d) && !Shiftable(bases, t, d)
    && t == s[d := WithFirstIndex(s[d], s[d].indices[0] + BaseAt(bases, s, d))]
  }

  lemma ClashFromEqual(bases: Bases, all: set<seq<Segment>>, s: seq<Segment>, t: seq<Segment>, d: nat)
    requires Positive(bases) && s != t && |s| == |t| && d < |s| && Shift(bases, all, s, d) == Shift(bases, all, t, d)
    ensures Clash(bases, all, s, t, d) || Clash(bases, all, t, s, d)
  {
    var r := Shift(bases, all, s, d);
    forall k | 0 <= k < |s| && k != d ensures s[k] == t[k] { assert s[k] == r[k] == t[k]; }
    assert s[..d] == t[..d];
    assert r[d] == ShiftSegment(bases, all, s, d) == ShiftSegment(bases, all, t, d);
    assert SameInstance(s, t, d);
    assert |s[d].indices| == |r[d].indices| == |t[d].indices|;
    if s[d].indices != [] { SameInstanceSameBase(bases, all, s, t, d); }
    SameMoveSameSegment(bases, all, s, t, d);
    assert s[d] == t[d] ==> s == t;
    assert Shifts(bases, all, s, d) ==> t == r;
    assert Shifts(bases, all, t, d) ==> s == r;
  }

  lemma SameMoveSameSegment(bases: Bases, all: set<seq<Segment>>, s: seq<Segment>, t: seq<Segment>, d: nat)
    requires SameInstance(s, t, d) && ShiftSegment(bases, all, s, d) == ShiftSegment(bases, all, t, d)
    requires |s[d].indices| == |t[d].indices|
    ensures Shifts(bases, all, s, d) == Shifts(bases, all, t, d) ==> s[d] == t[d]
  {
    var g := ShiftSegment(bases, all, s, d);
    if Shifts(bases, all, s, d) && Shifts(bases, all, t, d) {
      SameInstanceSameBase(bases, all, s, t, d);
      var i, j, lb := s[d].indices[0], t[d].indices[0], BaseAt(bases, s, d);
      assert i + lb == g.indices[0] == j + lb;
      assert s[d].indices == g.indices[0 := i] && t[d].indices == g.indices[0 := j];
    }
  }

  /** `s` and `t`, as they stand before depth `d`, clash there. */
  predicate ClashAt(bases: Bases, all: set<seq<Segment>>, s: seq<Segment>, t: seq<Segment>, d: nat) {
    var now, a, b := Pass(bases, all, d), Walk(bases, all, s, d), Walk(bases, all, t, d);
    Clash(bases, now, a, b, d) || Clash(bases, now, b, a, d)
  }

  lemma NextClash(bases: Bases, all: set<seq<Segment>>, s: seq<Segment>, t: seq<Segment>, d: nat)
    requires Positive(bases) && Walk(bases, all, s, d) != Walk(bases, all, t, d)
    ensures Walk(bases, all, s, d + 1) == Walk(bases, all, t, d + 1) <==> ClashAt(bases, all, s, t, d)
  {
    ShiftClash(bases, Pass(bases, all, d), Walk(bases, all, s, d), Walk(bases, all, t, d), d);
  }

  lemma StaySame(bases: Bases, all: set<seq<Segment>>, s: seq<Segment>, t: seq<Segment>, d: nat)
    requires Walk(bases, all, s, d) == Walk(bases, all, t, d)
    ensures Walk(bases, all, s, d + 1) == Walk(bases, all, t, d + 1)
  {
  }

  lemma {:induction false} MetByClash(bases: Bases, all: set<seq<Segment>>, s: seq<Segment>, t: seq<Segment>, n: nat) returns (d: nat)
    requires Positive(bases) && s != t && Walk(bases, all, s, n) == Walk(bases, all, t, n)
    ensures d < n && ClashAt(bases, all, s, t, d)
  {
    if Walk(bases, all, s, n - 1) == Walk(bases, all, t, n - 1) {
      d := MetByClash(bases, all, s, t, n - 1);
    } else {
      NextClash(bases, all, s, t, n - 1);
      d := n - 1;
    }
  }

  lemma {:induction false} Persists(p: nat -> bool, m: nat, n: nat)
    requires m <= n && p(m) && forall k: nat | p(k) :: p(k + 1)
    ensures p(n)
    decreases n - m
  {
    if m < n { Persists(p, m + 1, n); }
  }

  lemma StaySameFrom(bases: Bases, all: set<seq<Segment>>, s: seq<Segment>, t: seq<Segment>, m: nat, n: nat)
    requires m <= n && Walk(bases, all, s, m) == Walk(bases, all, t, m)
    ensures Walk(bases, all, s, n) == Walk(bases, all, t, n)
  {
    var p := (k: nat) => Walk(bases, all, s, k) == Walk(bases, all, t, k);
    forall k: nat | p(k) ensures p(k + 1) { StaySame(bases, all, s, t, k); }
    Persists(p, m, n);
  }

  lemma ClashMeets(bases: Bases, all: set<seq<Segment>>, s: seq<Segment>, t: seq<Segment>, d: nat)
    requires Positive(bases) && ClashAt(bases, all, s, t, d)
    ensures Walk(bases, all, s, d + 1) == Walk(bases, all, t, d + 1)
  {
    if Walk(bases, all, s, d) == Walk(bases, all, t, d) { StaySame(bases, all, s, t, d); } else { NextClash(bases, all, s, t, d); }
  }

  /** Two paths become the same in the whole rewriting exactly when they clash at one of its depths. */
  lemma WalkClash(bases: Bases, all: set<seq<Segment>>, s: seq<Segment>, t: seq<Segment>, n: nat)
    requires Positive(bases) && s != t
    ensures Walk(bases, all, s, n) == Walk(bases, all, t, n) <==> exists d :: 0 <= d < n && ClashAt(bases, all, s, t, d)
  {
    if Walk(bases, all, s, n) == Walk(bases, all, t, n) { var d := MetByClash(bases, all, s, t, n); }
    if d :| 0 <= d < n && ClashAt(bases, all, s, t, d) {
      ClashMeets(bases, all, s, t, d);
      StaySameFrom(bases, all, s, t, d + 1, n);
    }
  }

  // ---------------------------------------------------------------- exactly when a map loses an element

  predicate SameKey<V>(es: seq<Entry<V>>, i: nat, j: nat) {
    i < j < |es| && es[i].key == es[j].key
  }

  lemma {:induction false} CollectMapLoses<V>(es: seq<Entry<V>>)
    ensures |CollectMap(es)| <= |es|
    ensures (exists i: nat, j: nat :: SameKey(es, i, j)) ==> |CollectMap(es)| < |es|
  {
    if es != [] {
      var init, last := es[..|es| - 1], es[|es| - 1];
      CollectMapLoses(init);
      assert CollectMap(es).Keys == CollectMap(init).Keys + {last.key};
      if i: nat, j: nat :| SameKey(es, i, j) {
        if j < |init| {
          assert SameKey(init, i, j);
        } else {
          assert init[i].key == last.key;
          KeyIsCollected(init, i);
          assert CollectMap(es).Keys == CollectMap(init).Keys;
        }
      }
    }
  }

  lemma {:induction false} KeyIsCollected<V>(es: seq<Entry<V>>, i: nat)
    requires i < |es|
    ensures es[i].key in CollectMap(es)
  {
    if i < |es| - 1 { KeyIsCollected(es[..|es| - 1], i); }
  }

  /** The keys of entries `i` and `j` parse and clash. */
  predicate KeysClash<V>(bases: Bases, es: seq<Entry<V>>, i: nat, j: nat, d: nat) {
    && i < j < |es| && es[i].segs.Some? && es[j].segs.Some?
    && ClashAt(bases, Paths(es), es[i].segs.value, es[j].segs.value, d)
  }

  /** The key of an entry is no path, or spells its path canonically. */
  predicate EntryOk<V>(e: Entry<V>) {
    match e.segs
    case None => ParsedKey(e.key).None?
    case Some(s) => WfPath(s) && e.key == Render(s)
  }

  ghost predicate EntriesOk<V>(es: seq<Entry<V>>) {
    && (forall i | 0 <= i < |es| :: EntryOk(es[i]))
    && (forall i, j | 0 <= i < j < |es| :: es[i].key != es[j].key)
  }

  lemma KeyAfter<V>(bases: Bases, es: seq<Entry<V>>, i: nat)
    requires i < |es| && EntryOk(es[i])
    ensures var after := EntriesAfter(bases, es, Depth(es));
      match es[i].segs
      case None => after[i].key == es[i].key
      case Some(s) =>
        var w := Walk(bases, Paths(es), s, Depth(es));
        after[i].key == Render(w) && ParsedKey(after[i].key) == Some(w)
  {
    if es[i].segs.Some? { WalkKeyParses(bases, Paths(es), es[i].segs.value, Depth(es)); }
  }

  /** Two different keys are rewritten to the same key exactly when they clash. */
  lemma KeysMeet<V>(bases: Bases, es: seq<Entry<V>>, i: nat, j: nat)
    requires Positive(bases) && EntriesOk(es) && i < j < |es|
    ensures SameKey(EntriesAfter(bases, es, Depth(es)), i, j) <==> exists d: nat :: d < Depth(es) && KeysClash(bases, es, i, j, d)
  {
    assert EntryOk(es[i]) && EntryOk(es[j]);
    KeyAfter(bases, es, i);
    KeyAfter(bases, es, j);
    if es[i].segs.Some? && es[j].segs.Some? {
      var s, t := es[i].segs.value, es[j].segs.value;
      assert es[i].key != es[j].key;
      WalkClash(bases, Paths(es), s, t, Depth(es));
      if d :| 0 <= d < Depth(es) && ClashAt(bases, Paths(es), s, t, d) { assert KeysClash(bases, es, i, j, d); }
      if d: nat :| d < Depth(es) && KeysClash(bases, es, i, j, d) { assert ClashAt(bases, Paths(es), s, t, d); }
    }
  }

  /** No two keys clash at any depth. */
  ghost predicate NoClash<V>(bases: Bases, es: seq<Entry<V>>) {
    forall i: nat, j: nat, d: nat | d < Depth(es) :: !KeysClash(bases, es, i, j, d)
  }

  /** The value of entry `i` sits under the rewritten key. */
  predicate EntryKept<V(==)>(bases: Bases, es: seq<Entry<V>>, i: nat)
    requires i < |es|
  {
    var after := EntriesAfter(bases, es, Depth(es));
    after[i].key in CollectMap(after) && CollectMap(after)[after[i].key] == es[i].value
  }

  lemma EntriesLoseExactly<V>(bases: Bases, es: seq<Entry<V>>)
    requires Positive(bases) && EntriesOk(es)
    ensures var out := CollectMap(EntriesAfter(bases, es, Depth(es)));
      |out| <= |es| && (|out| == |es| <==> NoClash(bases, es))
    ensures NoClash(bases, es) ==> forall i: nat | i < |es| :: EntryKept(bases, es, i)
  {
    var after := EntriesAfter(bases, es, Depth(es));
    CollectMapLoses(after);
    if i: nat, j: nat :| SameKey(after, i, j) {
      KeysMeet(bases, es, i, j);
    } else {
      assert forall i: nat, j: nat :: !SameKey(after, i, j);
      forall i, j | 0 <= i < j < |after| ensures after[i].key != after[j].key { assert !SameKey(after, i, j); }
      CollectMapSize(after);
      forall i: nat, j: nat, d: nat | d < Depth(es) ensures !KeysClash(bases, es, i, j, d) {
        if i < j < |es| { KeysMeet(bases, es, i, j); }
      }
      forall i: nat | i < |es| ensures EntryKept(bases, es, i) { CollectMapHas(after, i); }
    }
  }

  lemma TameEntries<V>(m: seq<(string, V)>)
    requires DistinctKeys(m) && Tame(m)
    ensures EntriesOk(Entries(m))
  {
    EntriesWf(m);
    forall i | 0 <= i < |m| ensures EntryOk(Entries(m)[i]) {
      if Entries(m)[i].segs.Some? { assert Canonical(m[i].0) && WfPath(Entries(m)[i].segs.value); }
    }
  }

  /** The rewritten map is as large as the map it came from exactly when no two keys clash at any depth, and then every value
      sits under the new key of its element; otherwise it is smaller. */
  lemma RebaseLosesExactly<V>(bases: Bases, m: seq<(string, V)>)
    requires Positive(bases) && DistinctKeys(m) && Tame(m)
    ensures |Rebased(bases, m)| <= |m|
    ensures |Rebased(bases, m)| == |m| <==> NoClash(bases, Entries(m))
    ensures NoClash(bases, Entries(m)) ==> forall i: nat | i < |m| :: EntryKept(bases, Entries(m), i)
  {
    TameEntries(m);
    EntriesLoseExactly(bases, Entries(m));
  }

  /** `P[i]` */
  function Element(i: nat): string {
    Render([Segment("P", [i])])
  }

  /** The case that is not guarded against: `P[4294967294]` moves onto `P[4294967295]`, and one of three values is lost. */
  lemma OverflowLosesAnElement<V>(a: V, b: V, c: V)
    ensures |Rebased(map["P" := 1], [(Element(0), a), (Element(4294967294), b), (Element(4294967295), c)])| < 3
  {
    ExampleLoses(map["P" := 1], [(Element(0), a), (Element(4294967294), b), (Element(4294967295), c)]);
  }

  lemma ExampleLoses<V>(bases: Bases, m: seq<(string, V)>)
    requires bases == map["P" := 1] && |m| == 3
    requires m[0].0 == Element(0) && m[1].0 == Element(4294967294) && m[2].0 == Element(4294967295)
    ensures |Rebased(bases, m)| < 3
  {
    ElementEntry(m, 0, 0);
    ElementEntry(m, 1, 4294967294);
    ElementEntry(m, 2, 4294967295);
    ThreeLose(bases, Entries(m), [Segment("P", [0])], [Segment("P", [4294967294])], [Segment("P", [4294967295])]);
  }

  lemma ElementEntry<V>(m: seq<(string, V)>, i: nat, n: nat)
    requires i < |m| && n < U32_END && m[i].0 == Element(n)
    ensures Spells(Entries(m)[i], [Segment("P", [n])])
  {
    var s := [Segment("P", [n])];
    assert WfSegment(s[0]);
    ParseRender(s);
  }

  /** The key of the entry spells this path. */
  predicate Spells<V>(e: Entry<V>, s: seq<Segment>) {
    e.segs == Some(s) && e.key == Render(s) && WfPath(s)
  }

  /** Entries of different paths. */
  predicate SpellAll<V>(es: seq<Entry<V>>, paths: seq<seq<Segment>>) {
    && |es| == |paths| && (forall i | 0 <= i < |es| :: Spells(es[i], paths[i]))
    && forall i, j | 0 <= i < j < |paths| :: paths[i] != paths[j]
  }

  lemma SpelledOk<V>(es: seq<Entry<V>>, paths: seq<seq<Segment>>)
    requires SpellAll(es, paths)
    ensures EntriesOk(es)
  {
    forall i | 0 <= i < |es| ensures EntryOk(es[i]) { assert Spells(es[i], paths[i]); }
    forall i, j | 0 <= i < j < |es| ensures es[i].key != es[j].key {
      assert Spells(es[i], paths[i]) && Spells(es[j], paths[j]);
      if es[i].key == es[j].key { RenderInjective(paths[i], paths[j]); }
    }
  }

  /** Of three keys, two clash at the first depth. */
  lemma ThreeLose<V>(bases: Bases, es: seq<Entry<V>>, z: seq<Segment>, s: seq<Segment>, t: seq<Segment>)
    requires bases == map["P" := 1]
    requires z == [Segment("P", [0])] && s == [Segment("P", [4294967294])] && t == [Segment("P", [4294967295])]
    requires |es| == 3 && Spells(es[0], z) && Spells(es[1], s) && Spells(es[2], t)
    ensures |CollectMap(EntriesAfter(bases, es, Depth(es)))| < 3
  {
    ExampleDiffers(z, s, t);
    ThreeDiffer(es, z, s, t);
    ExampleClash(bases, {z, s, t}, z, s, t);
    ExamplePaths(es, z, s, t);
    ClashLoses(bases, es, 1, 2, 0);
  }

  lemma ThreeDiffer<V>(es: seq<Entry<V>>, z: seq<Segment>, s: seq<Segment>, t: seq<Segment>)
    requires |es| == 3 && Spells(es[0], z) && Spells(es[1], s) && Spells(es[2], t) && z != s && z != t && s != t
    ensures EntriesOk(es)
  {
    SpelledOk(es, [z, s, t]);
  }

  lemma ClashLoses<V>(bases: Bases, es: seq<Entry<V>>, i: nat, j: nat, d: nat)
    requires Positive(bases) && EntriesOk(es) && d < Depth(es) && KeysClash(bases, es, i, j, d)
    ensures |CollectMap(EntriesAfter(bases, es, Depth(es)))| < |es|
  {
    EntriesLoseExactly(bases, es);
  }

  lemma ExampleDiffers(z: seq<Segment>, s: seq<Segment>, t: seq<Segment>)
    requires z == [Segment("P", [0])] && s == [Segment("P", [4294967294])] && t == [Segment("P", [4294967295])]
    ensures z != s && z != t && s != t
  {
    assert z[0].indices[0] != s[0].indices[0] && z[0].indices[0] != t[0].indices[0] && s[0].indices[0] != t[0].indices[0];
  }

  lemma ExamplePaths<V>(es: seq<Entry<V>>, z: seq<Segment>, s: seq<Segment>, t: seq<Segment>)
    requires |es| == 3 && |z| == 1 && es[0].segs == Some(z) && es[1].segs == Some(s) && es[2].segs == Some(t)
    ensures Paths(es) == {z, s, t} && Depth(es) >= 1
  {
    assert es[0].segs == Some(z) && es[1].segs == Some(s) && es[2].segs == Some(t);
    assert z in Paths(es) && s in Paths(es) && t in Paths(es);
  }

  lemma ExampleClash(bases: Bases, all: set<seq<Segment>>, z: seq<Segment>, s: seq<Segment>, t: seq<Segment>)
    requires bases == map["P" := 1] && all == {z, s, t}
    requires z == [Segment("P", [0])] && s == [Segment("P", [4294967294])] && t == [Segment("P", [4294967295])]
    ensures ClashAt(bases, all, s, t, 0)
  {
    forall p | p in all ensures StripIndices(p[..1]) == "P" && Walk(bases, all, p, 0) == p { assert Names(p[..1]) == ["P"]; }
    assert Pass(bases, all, 0) == all;
    assert ZeroElement(s, z, 0);
    assert s[0].indices[0 := U32_END - 1] == [U32_END - 1];
    assert t == s[0 := WithFirstIndex(s[0], U32_END - 1)];
  }
}
