/** `rebase_array_keys` over a whole map: the loops of `crates/opcua-cmd/src/nodemap.rs` against `NodeMap.Walk`, and what
    the documentation promises of the rewritten map. A `BTreeMap` is given as its entries in iteration order. */
module Rebase {
  import opened Wrappers
  import opened Text
  import opened Path
  import opened NodeMap

  datatype Entry<V> = Entry(segs: Option<seq<Segment>>, key: string, value: V)

  function ParsedKey(key: string): (segs: Option<seq<Segment>>) {
    match ParsePath(key)
    case Ok(ss) => Some(ss)
    case Err(_) => None
  }

  function Entries<V>(m: seq<(string, V)>): (es: seq<Entry<V>>)
    ensures |es| == |m|
    ensures forall i | 0 <= i < |m| :: es[i] == Entry(ParsedKey(m[i].0), m[i].0, m[i].1)
  {
    seq(|m|, i requires 0 <= i < |m| => Entry(ParsedKey(m[i].0), m[i].0, m[i].1))
  }

  /** The paths of the entries whose key parses. */
  function Paths<V>(es: seq<Entry<V>>): set<seq<Segment>> {
    set i | 0 <= i < |es| && es[i].segs.Some? :: es[i].segs.value
  }

  /** Later entries win, as when a `BTreeMap` is collected from an iterator. */
  function CollectMap<V>(es: seq<Entry<V>>): map<string, V> {
    if es == [] then map[]
    else
      var last := es[|es| - 1];
      CollectMap(es[..|es| - 1])[last.key := last.value]
  }

  // ---------------------------------------------------------------- the specification of the result

  /** Entry `e` after the depths below `n`: its path as walked, its key rewritten when the path changed. */
  function EntryAfter<V>(bases: Bases, all: set<seq<Segment>>, e: Entry<V>, n: nat): (r: Entry<V>)
    ensures r.value == e.value
  {
    if e.segs.None? then e
    else
      var w := Walk(bases, all, e.segs.value, n);
      Entry(Some(w), if w == e.segs.value then e.key else Render(w), e.value)
  }

  function EntriesAfter<V>(bases: Bases, es: seq<Entry<V>>, n: nat): (r: seq<Entry<V>>)
    ensures |r| == |es|
    ensures forall i | 0 <= i < |es| :: r[i] == EntryAfter(bases, Paths(es), es[i], n)
  {
    seq(|es|, i requires 0 <= i < |es| => EntryAfter(bases, Paths(es), es[i], n))
  }

  function Depth<V>(es: seq<Entry<V>>): (n: nat)
    ensures forall i | 0 <= i < |es| && es[i].segs.Some? :: |es[i].segs.value| <= n
  {
    if es == [] then 0
    else
      var last, rest := es[|es| - 1], Depth(es[..|es| - 1]);
      if last.segs.Some? && |last.segs.value| > rest then |last.segs.value| else rest
  }

  function Rebased<V>(bases: Bases, m: seq<(string, V)>): map<string, V> {
    var es := Entries(m);
    CollectMap(EntriesAfter(bases, es, Depth(es)))
  }

  /** How many of the depths below `n` moved an index of `s`. */
  function Moves(bases: Bases, all: set<seq<Segment>>, s: seq<Segment>, n: nat): nat {
    if n == 0 then 0
    else Moves(bases, all, s, n - 1) + if Shifts(bases, Pass(bases, all, n - 1), Walk(bases, all, s, n - 1), n - 1) then 1 else 0
  }

  function TotalMoves<V>(bases: Bases, all: set<seq<Segment>>, es: seq<Entry<V>>, n: nat): nat {
    if es == [] then 0
    else
      var last := es[|es| - 1];
      TotalMoves(bases, all, es[..|es| - 1], n) + if last.segs.Some? then Moves(bases, all, last.segs.value, n) else 0
  }

  // ---------------------------------------------------------------- instances by their printed name

  /** The array instance that `s` passes through at depth `d`, its lower bound and the index there. */
  function Instance(bases: Bases, s: seq<Segment>, d: nat): (r: Option<(string, int, nat)>)
    ensures r.Some? <==> InArray(bases, s, d)
    ensures r.Some? ==> r.value == (InstanceKey(s, d), BaseAt(bases, s, d), s[d].indices[0])
  {
    if d < |s| && s[d].indices != [] && StripIndices(s[..d + 1]) in bases
    then Some((InstanceKey(s, d), bases[StripIndices(s[..d + 1])], s[d].indices[0]))
    else None
  }

  function InstanceKey(s: seq<Segment>, d: nat): string
    requires d < |s|
  {
    var prefix := Render(s[..d]);
    (if prefix == "" then "" else prefix + ".") + s[d].name
  }

  lemma InstanceKeyRenders(s: seq<Segment>, d: nat)
    requires WfPath(s) && d < |s|
    ensures WfPath(s[..d] + [Segment(s[d].name, [])])
    ensures InstanceKey(s, d) == Render(s[..d] + [Segment(s[d].name, [])])
  {
    assert s[d] in s && forall x | x in s[..d] :: x in s;
    RenderSnoc(s[..d], Segment(s[d].name, []));
    assert RenderSegment(Segment(s[d].name, [])) == s[d].name;
    if d > 0 { RenderShape(s[..d]); }
  }

  /** Two well-formed paths print the same instance exactly when they pass through the same one. */
  lemma InstanceKeyIdentifies(s: seq<Segment>, t: seq<Segment>, d: nat)
    requires WfPath(s) && WfPath(t) && d < |s| && d < |t|
    ensures InstanceKey(s, d) == InstanceKey(t, d) <==> SameInstance(s, t, d)
  {
    InstanceKeyRenders(s, d);
    InstanceKeyRenders(t, d);
    if InstanceKey(s, d) == InstanceKey(t, d) {
      var a, b := s[..d] + [Segment(s[d].name, [])], t[..d] + [Segment(t[d].name, [])];
      RenderInjective(a, b);
      assert s[..d] == a[..d] == b[..d] == t[..d];
      assert a[d] == b[d];
    }
  }

  lemma {:induction false} WalkWf(bases: Bases, all: set<seq<Segment>>, s: seq<Segment>, n: nat)
    requires WfPath(s)
    ensures WfPath(Walk(bases, all, s, n))
  {
    if n > 0 {
      var d, w := n - 1, Walk(bases, all, s, n - 1);
      WalkWf(bases, all, s, d);
      if d < |s| {
        assert WfSegment(w[d]);
        assert WfSegment(ShiftSegment(bases, Pass(bases, all, d), w, d));
      }
    }
  }

  // ---------------------------------------------------------------- the loops

  ghost predicate WfEntries<V>(es: seq<Entry<V>>) {
    forall i | 0 <= i < |es| && es[i].segs.Some? :: WfPath(es[i].segs.value)
  }

  /** Array instances with a known lower bound at depth `d`, with the indices present, kept where element 0 is. */
  method ZeroGroups<V>(bases: Bases, es: seq<Entry<V>>, d: nat) returns (groups: set<string>)
    requires WfEntries(es)
    ensures forall s | s in Paths(es) && InArray(bases, s, d) :: InstanceKey(s, d) in groups <==> HoldsZero(Paths(es), s, d)
  {
    var found: map<string, set<nat>> := map[];
    for i := 0 to |es|
      invariant forall k: nat | k < i && es[k].segs.Some? && InArray(bases, es[k].segs.value, d) ::
          && InstanceKey(es[k].segs.value, d) in found
          && es[k].segs.value[d].indices[0] in found[InstanceKey(es[k].segs.value, d)]
      invariant forall g | g in found && 0 in found[g] :: ZeroIn(bases, es[..i], d, g)
    {
      assert es[..i + 1] == es[..i] + [es[i]];
      forall g | ZeroIn(bases, es[..i], d, g) ensures ZeroIn(bases, es[..i + 1], d, g) {
        var k: nat :| k < i && HasZero(bases, es[..i][k], d, g);
        assert HasZero(bases, es[..i + 1][k], d, g);
      }
      if es[i].segs.Some? {
        var inst := Instance(bases, es[i].segs.value, d);
        if inst.Some? {
          var (g, _, idx) := inst.value;
          var seen := if g in found then found[g] else {};
          assert idx == 0 ==> HasZero(bases, es[..i + 1][i], d, g);
          found := found[g := seen + {idx}];
        }
      }
    }
    groups := set g | g in found && 0 in found[g];
    assert es[..|es|] == es;
    forall s | s in Paths(es) && InArray(bases, s, d) ensures InstanceKey(s, d) in groups <==> HoldsZero(Paths(es), s, d) {
      GroupIffZero(bases, es, d, s, found);
    }
  }

  predicate HasZero<V>(bases: Bases, e: Entry<V>, d: nat, g: string) {
    e.segs.Some? && InArray(bases, e.segs.value, d) && InstanceKey(e.segs.value, d) == g && e.segs.value[d].indices[0] == 0
  }

  predicate ZeroIn<V>(bases: Bases, es: seq<Entry<V>>, d: nat, g: string) {
    exists k: nat :: k < |es| && HasZero(bases, es[k], d, g)
  }

  lemma GroupIffZero<V>(bases: Bases, es: seq<Entry<V>>, d: nat, s: seq<Segment>, found: map<string, set<nat>>)
    requires WfEntries(es) && s in Paths(es) && InArray(bases, s, d)
    requires forall k: nat | k < |es| && es[k].segs.Some? && InArray(bases, es[k].segs.value, d) ::
        && InstanceKey(es[k].segs.value, d) in found
        && es[k].segs.value[d].indices[0] in found[InstanceKey(es[k].segs.value, d)]
    requires forall g | g in found && 0 in found[g] :: ZeroIn(bases, es, d, g)
    ensures InstanceKey(s, d) in found && (0 in found[InstanceKey(s, d)] <==> HoldsZero(Paths(es), s, d))
  {
    var i :| 0 <= i < |es| && es[i].segs == Some(s);
    var g := InstanceKey(s, d);
    if 0 in found[g] {
      var k: nat :| k < |es| && HasZero(bases, es[k], d, g);
      var t := es[k].segs.value;
      InstanceKeyIdentifies(s, t, d);
      assert t in Paths(es) && ZeroElement(s, t, d);
    }
    if HoldsZero(Paths(es), s, d) {
      var t: seq<Segment> :| t in Paths(es) && ZeroElement(s, t, d);
      var k :| 0 <= k < |es| && es[k].segs == Some(t);
      InstanceKeyIdentifies(s, t, d);
      SameInstanceSameBase(bases, Paths(es), s, t, d);
    }
  }

  /** One turn of the depth loop: moves the first index of every element of a 0-based instance at depth `d`. */
  method RebaseDepth<V>(bases: Bases, es: seq<Entry<V>>, d: nat) returns (out: seq<Entry<V>>, changed: nat)
    requires WfEntries(es)
    ensures |out| == |es| && forall i | 0 <= i < |es| :: out[i] == ShiftEntry(bases, Paths(es), es[i], d)
    ensures changed == CountShifts(bases, Paths(es), es, d)
  {
    var groups := ZeroGroups(bases, es, d);
    out, changed := es, 0;
    for i := 0 to |es|
      invariant |out| == |es|
      invariant forall k | 0 <= k < i :: out[k] == ShiftEntry(bases, Paths(es), es[k], d)
      invariant forall k | i <= k < |es| :: out[k] == es[k]
      invariant changed == CountShifts(bases, Paths(es), es[..i], d)
    {
      assert es[..i + 1][..i] == es[..i];
      var e, moved := RebaseEntry(bases, Paths(es), groups, out[i], d);
      out := out[i := e];
      if moved { changed := changed + 1; }
    }
    assert es[..|es|] == es;
  }

  /** The body of the entry loop; the ghost `all` names the paths that `groups` was computed from. */
  method RebaseEntry<V>(bases: Bases, ghost all: set<seq<Segment>>, groups: set<string>, e: Entry<V>, d: nat)
    returns (out: Entry<V>, moved: bool)
    requires e.segs.Some? && InArray(bases, e.segs.value, d) ==> (InstanceKey(e.segs.value, d) in groups <==> HoldsZero(all, e.segs.value, d))
    ensures out == ShiftEntry(bases, all, e, d)
    ensures moved <==> e.segs.Some? && Shifts(bases, all, e.segs.value, d)
  {
    if e.segs.None? { return e, false; }
    var s := e.segs.value;
    var inst := Instance(bases, s, d);
    if inst.None? || inst.value.0 !in groups { return e, false; }
    var idx := inst.value.2 + inst.value.1;
    if !(0 <= idx < U32_END) { return e, false; }
    var path := s[d := WithFirstIndex(s[d], idx)];
    return Entry(Some(path), Render(path), e.value), true;
  }

  function ShiftEntry<V>(bases: Bases, all: set<seq<Segment>>, e: Entry<V>, d: nat): Entry<V> {
    if e.segs.Some? && Shifts(bases, all, e.segs.value, d) then
      var moved := Shift(bases, all, e.segs.value, d);
      Entry(Some(moved), Render(moved), e.value)
    else e
  }

  function CountShifts<V>(bases: Bases, all: set<seq<Segment>>, es: seq<Entry<V>>, d: nat): nat {
    if es == [] then 0
    else
      var last := es[|es| - 1];
      CountShifts(bases, all, es[..|es| - 1], d) + if last.segs.Some? && Shifts(bases, all, last.segs.value, d) then 1 else 0
  }

  // ---------------------------------------------------------------- the whole operation

  /** A base key that does not parse, or has no positive lower bound, is dropped; the others are stripped of indices. */
  function NormalizedBases(bs: seq<(string, int)>): (bases: Bases)
    ensures Positive(bases)
  {
    if bs == [] then map[]
    else
      var (key, lb) := bs[|bs| - 1];
      var rest := NormalizedBases(bs[..|bs| - 1]);
      var segs := ParsedKey(key);
      if lb > 0 && segs.Some? then rest[StripIndices(segs.value) := lb] else rest
  }

  /** `rebase_array_keys`: the rewritten map and the number of keys moved. */
  method RebaseArrayKeys<V>(m: seq<(string, V)>, bs: seq<(string, int)>) returns (out: map<string, V>, changed: nat)
    ensures out == Rebased(NormalizedBases(bs), m)
    ensures changed == TotalMoves(NormalizedBases(bs), Paths(Entries(m)), Entries(m), Depth(Entries(m)))
  {
    var bases := NormalizedBases(bs);
    var es := Entries(m);
    ghost var es0 := es;
    ghost var all := Paths(es0);
    EntriesWf(m);
    if bases == map[] {
      NoBases(all, es0, Depth(es0));
      assert EntriesAfter(bases, es0, Depth(es0)) == es0;
      return CollectMap(es), 0;
    }
    var depth := Depth(es);
    changed := 0;
    NothingMoved(bases, es0);
    for d := 0 to depth
      invariant es == EntriesAfter(bases, es0, d)
      invariant changed == TotalMoves(bases, all, es0, d)
    {
      AfterWf(bases, es0, d);
      PathsAfter(bases, es0, d);
      var next, n := RebaseDepth(bases, es, d);
      NextEntries(bases, es0, d);
      assert next == EntriesAfter(bases, es0, d + 1);
      MovesAdd(bases, es0, es0, d);
      es, changed := next, changed + n;
    }
    out := CollectMap(es);
  }

  lemma EntriesWf<V>(m: seq<(string, V)>)
    ensures WfEntries(Entries(m))
  {
    forall i | 0 <= i < |m| && Entries(m)[i].segs.Some? ensures WfPath(Entries(m)[i].segs.value) { ParsePathWf(m[i].0); }
  }

  lemma {:induction false} NoBases<V>(all: set<seq<Segment>>, es: seq<Entry<V>>, n: nat)
    ensures forall s | s in all :: Walk(map[], all, s, n) == s && Moves(map[], all, s, n) == 0
    ensures Paths(es) <= all ==> TotalMoves(map[], all, es, n) == 0
    decreases n, |es|
  {
    if n > 0 { NoBases(all, es, n - 1); }
    if es != [] { NoBases(all, es[..|es| - 1], n); }
  }

  lemma {:induction false} NothingMoved<V>(bases: Bases, es: seq<Entry<V>>)
    ensures EntriesAfter(bases, es, 0) == es
    ensures forall all :: TotalMoves(bases, all, es, 0) == 0
  {
    if es != [] { NothingMoved(bases, es[..|es| - 1]); }
  }

  lemma AfterWf<V>(bases: Bases, es: seq<Entry<V>>, n: nat)
    requires WfEntries(es)
    ensures WfEntries(EntriesAfter(bases, es, n))
  {
    forall i | 0 <= i < |es| && es[i].segs.Some? ensures WfPath(Walk(bases, Paths(es), es[i].segs.value, n)) {
      WalkWf(bases, Paths(es), es[i].segs.value, n);
    }
  }

  lemma PathsAfter<V>(bases: Bases, es: seq<Entry<V>>, n: nat)
    ensures Paths(EntriesAfter(bases, es, n)) == Pass(bases, Paths(es), n)
  {
    var after := EntriesAfter(bases, es, n);
    forall w | w in Pass(bases, Paths(es), n) ensures w in Paths(after) {
      var s: seq<Segment> :| s in Paths(es) && w == Walk(bases, Paths(es), s, n);
      var i :| 0 <= i < |es| && es[i].segs == Some(s);
      assert after[i].segs == Some(w);
    }
    forall w | w in Paths(after) ensures w in Pass(bases, Paths(es), n) {
      var i :| 0 <= i < |after| && after[i].segs == Some(w);
      assert es[i].segs.value in Paths(es);
    }
  }

  lemma NextEntries<V>(bases: Bases, es: seq<Entry<V>>, d: nat)
    requires Positive(bases)
    ensures forall i | 0 <= i < |es| ::
      ShiftEntry(bases, Pass(bases, Paths(es), d), EntriesAfter(bases, es, d)[i], d) == EntriesAfter(bases, es, d + 1)[i]
  {
    forall i | 0 <= i < |es|
      ensures ShiftEntry(bases, Pass(bases, Paths(es), d), EntriesAfter(bases, es, d)[i], d) == EntriesAfter(bases, es, d + 1)[i]
    {
      if es[i].segs.Some? { NextEntry(bases, Paths(es), es[i], d); }
    }
  }

  /** An index that moved up never comes back, so a rewritten key stays rewritten. */
  lemma NextEntry<V>(bases: Bases, all: set<seq<Segment>>, e: Entry<V>, d: nat)
    requires Positive(bases) && e.segs.Some?
    ensures ShiftEntry(bases, Pass(bases, all, d), EntryAfter(bases, all, e, d), d) == EntryAfter(bases, all, e, d + 1)
  {
    var s := e.segs.value;
    var w := Walk(bases, all, s, d);
    if Shifts(bases, Pass(bases, all, d), w, d) {
      assert Walk(bases, all, s, d + 1)[d].indices[0] > w[d].indices[0] && w[d] == s[d];
    } else {
      assert d < |s| ==> w[d := w[d]] == w;
    }
  }

  lemma {:induction false} MovesAdd<V>(bases: Bases, es0: seq<Entry<V>>, es: seq<Entry<V>>, d: nat)
    ensures var all := Paths(es0);
      TotalMoves(bases, all, es, d + 1)
      == TotalMoves(bases, all, es, d)
       + CountShifts(bases, Pass(bases, all, d), seq(|es|, i requires 0 <= i < |es| => EntryAfter(bases, all, es[i], d)), d)
    decreases |es|
  {
    var all := Paths(es0);
    var after := seq(|es|, i requires 0 <= i < |es| => EntryAfter(bases, all, es[i], d));
    if es != [] {
      var init := es[..|es| - 1];
      MovesAdd(bases, es0, init, d);
      assert after[..|after| - 1] == seq(|init|, i requires 0 <= i < |init| => EntryAfter(bases, all, init[i], d));
    }
  }
}
