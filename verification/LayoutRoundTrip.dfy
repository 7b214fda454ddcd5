/** The lower-bound table and the root translation of `crates/opcua-cmd/src/nodemap.rs:116-160` as loops, and the round trip
    from layout paths through the server's names back to layout paths. */
module LayoutRoundTrip {
  import opened Wrappers
  import opened Text
  import opened Path
  import opened NodeMap
  import opened Rebase
  import opened RebaseLaws
  import opened SimOpcua
  import opened LayoutNames

  // ---------------------------------------------------------------- array_bases_from_paths

  /** Array elements of the first `d` segments of `s`. */
  ghost predicate BasesUpTo(all: set<seq<Segment>>, s: seq<Segment>, n: nat, out: Bases) {
    && (forall t: seq<Segment>, d: nat | t in all && IsElement(t, d) :: ArrayKey(t, d) in out && out[ArrayKey(t, d)] <= t[d].indices[0])
    && (forall d: nat | d < n && IsElement(s, d) :: ArrayKey(s, d) in out && out[ArrayKey(s, d)] <= s[d].indices[0])
    && (forall k | k in out :: SmallestSeen(all + {s}, k, out[k]))
  }

  /** One path of `array_bases_from_paths`. */
  method AddPath(ghost all: set<seq<Segment>>, s: seq<Segment>, bases: Bases) returns (out: Bases)
    requires IsBases(all, bases)
    ensures IsBases(all + {s}, out)
  {
    out := bases;
    forall k | k in out ensures SmallestSeen(all + {s}, k, out[k]) { SeenMore(all, s, k, out[k]); }
    for d := 0 to |s|
      invariant BasesUpTo(all, s, d, out)
    {
      if s[d].indices != [] {
        ghost var before := out;
        var key, i := StripIndices(s[..d + 1]), s[d].indices[0];
        assert key == ArrayKey(s, d) && IsElement(s, d);
        assert SmallestSeen(all + {s}, key, i);
        out := Lower(out, key, i);
        LowerKeeps(all, s, d, before, out);
      }
    }
  }

  /** `entry(key).or_insert(i)`, then the minimum. */
  function Lower(bases: Bases, key: string, i: int): (out: Bases)
    ensures key in out && out[key] <= i
    ensures forall k | k in bases :: k in out && out[k] <= bases[k]
    ensures forall k | k in out :: (k in bases && out[k] == bases[k]) || (k == key && out[k] == i)
  {
    if key in bases && bases[key] <= i then bases else bases[key := i]
  }

  lemma LowerKeeps(all: set<seq<Segment>>, s: seq<Segment>, n: nat, before: Bases, out: Bases)
    requires BasesUpTo(all, s, n, before) && IsElement(s, n)
    requires out == Lower(before, ArrayKey(s, n), s[n].indices[0]) && SmallestSeen(all + {s}, ArrayKey(s, n), s[n].indices[0])
    ensures BasesUpTo(all, s, n + 1, out)
  {
  }

  lemma SeenMore(all: set<seq<Segment>>, s: seq<Segment>, k: string, lb: int)
    requires SmallestSeen(all, k, lb)
    ensures SmallestSeen(all + {s}, k, lb)
  {
    var t: seq<Segment>, d: nat :| t in all && IsElement(t, d) && ArrayKey(t, d) == k && t[d].indices[0] == lb;
    assert t in all + {s};
  }

  /** `array_bases_from_paths`: a path that does not parse is skipped. */
  method ArrayBasesFromPaths(paths: seq<string>) returns (out: Bases)
    ensures IsBases(LayoutPaths(paths), out)
  {
    out := map[];
    for k := 0 to |paths|
      invariant IsBases(LayoutPaths(paths[..k]), out)
    {
      LayoutPathsSnoc(paths, k);
      match ParsePath(paths[k])
      case Err(_) =>
      case Ok(segs) => out := AddPath(LayoutPaths(paths[..k]), segs, out);
    }
    assert paths[..|paths|] == paths;
  }

  lemma LayoutPathsSnoc(paths: seq<string>, k: nat)
    requires k < |paths|
    ensures LayoutPaths(paths[..k + 1])
         == LayoutPaths(paths[..k]) + (if ParsePath(paths[k]).Ok? then {Segments(paths[k])} else {})
  {
    var a, b := LayoutPaths(paths[..k + 1]), LayoutPaths(paths[..k]);
    forall s | s in b ensures s in a {
      var i: nat :| i < k && ParsePath(paths[..k][i]).Ok? && s == Segments(paths[..k][i]);
      assert paths[..k + 1][i] == paths[..k][i];
    }
    forall s | s in a ensures s in b || (ParsePath(paths[k]).Ok? && s == Segments(paths[k])) {
      var i: nat :| i < k + 1 && ParsePath(paths[..k + 1][i]).Ok? && s == Segments(paths[..k + 1][i]);
      if i < k { assert paths[..k][i] == paths[..k + 1][i]; }
    }
    if ParsePath(paths[k]).Ok? { assert paths[..k + 1][k] == paths[k]; }
  }

  // ---------------------------------------------------------------- server_root_path

  function RootIndex(lb: int, k: nat, i: nat): nat {
    var v := if k == 0 then i - lb else i;
    if v < 0 then 0 else v
  }

  function RootIndices(lb: int, ix: seq<nat>): seq<nat> {
    seq(|ix|, k requires 0 <= k < |ix| => RootIndex(lb, k, ix[k]))
  }

  function RootSegment(bases: Bases, s: seq<Segment>, d: nat): Segment
    requires d < |s|
  {
    var lb := if StripIndices(s[..d + 1]) in bases then bases[StripIndices(s[..d + 1])] else 0;
    Segment(s[d].name, RootIndices(lb, s[d].indices))
  }

  function RootSegments(bases: Bases, s: seq<Segment>): seq<Segment> {
    seq(|s|, d requires 0 <= d < |s| => RootSegment(bases, s, d))
  }

  /** Only the first index of an array with a known lower bound is counted from it, 0 at least; names, other indices and other arrays
      are kept. */
  lemma RootExactly(bases: Bases, s: seq<Segment>, d: nat, k: nat)
    requires d < |s| && k < |s[d].indices|
    ensures |RootSegments(bases, s)| == |s|
    ensures var g, key, i := RootSegments(bases, s)[d], StripIndices(s[..d + 1]), s[d].indices[k];
      && g.name == s[d].name && |g.indices| == |s[d].indices|
      && (k > 0 || key !in bases ==> g.indices[k] == i)
      && (k == 0 && key in bases && bases[key] <= i ==> g.indices[k] == i - bases[key])
      && (k == 0 && key in bases && bases[key] > i ==> g.indices[k] == 0)
  {
  }

  /** The inner loop of `server_root_path`: one segment with its indices translated. */
  method RootPart(g: Segment, lb: int) returns (part: string)
    ensures part == RenderSegment(Segment(g.name, RootIndices(lb, g.indices)))
  {
    part := g.name;
    ghost var ix := RootIndices(lb, g.indices);
    for k := 0 to |g.indices|
      invariant part == g.name + RenderIndices(ix[..k])
    {
      RenderIndicesSnoc(ix[..k], ix[k]);
      assert ix[..k + 1] == ix[..k] + [ix[k]];
      part := part + "[" + Decimal(RootIndex(lb, k, g.indices[k])) + "]";
    }
    assert ix[..|ix|] == ix;
  }

  /** The outer loop of `server_root_path`. */
  method RootText(s: seq<Segment>, bases: Bases) returns (r: string)
    ensures r == Render(RootSegments(bases, s))
  {
    var out: seq<string> := [];
    for d := 0 to |s|
      invariant |out| == d && forall k | 0 <= k < d :: out[k] == RenderSegment(RootSegment(bases, s, k))
    {
      var lb := if StripIndices(s[..d + 1]) in bases then bases[StripIndices(s[..d + 1])] else 0;
      var part := RootPart(s[d], lb);
      out := out + [part];
    }
    assert out == RenderSegments(RootSegments(bases, s));
    r := Join(out, '.');
  }

  /** `server_root_path`: a root that does not parse is kept. */
  method ServerRootPath(root: string, bases: Bases) returns (r: string)
    ensures ParsePath(root).Err? ==> r == root
    ensures ParsePath(root).Ok? ==> r == Render(RootSegments(bases, ParsePath(root).value))
  {
    match ParsePath(root)
    case Err(_) => r := root;
    case Ok(s) => r := RootText(s, bases);
  }

  /** The console's root translation agrees with the server's own naming of any member below the root. */
  lemma RootMatchesServer(all: set<seq<Segment>>, bases: Bases, s: seq<Segment>, n: nat)
    requires IsBases(all, bases) && SharedBounds(all, bases) && s in all && n <= |s|
    requires forall d | 0 <= d < |s| :: |s[d].indices| <= 1
    ensures RootSegments(bases, s[..n]) == ServerPath(all, s)[..n]
  {
    forall d | 0 <= d < n ensures RootSegment(bases, s[..n], d) == ServerPath(all, s)[d] {
      RootAt(all, bases, s, n, d);
    }
  }

  lemma RootAt(all: set<seq<Segment>>, bases: Bases, s: seq<Segment>, n: nat, d: nat)
    requires IsBases(all, bases) && SharedBounds(all, bases) && s in all && d < n <= |s| && |s[d].indices| <= 1
    ensures RootSegment(bases, s[..n], d) == ServerSegment(all, s, d)
  {
    assert s[..n][..d + 1] == s[..d + 1];
    if s[d].indices != [] { RootElement(all, bases, s[..n], s, d); }
  }

  lemma RootElement(all: set<seq<Segment>>, bases: Bases, root: seq<Segment>, s: seq<Segment>, d: nat)
    requires IsBases(all, bases) && SharedBounds(all, bases) && s in all && IsElement(s, d) && |s[d].indices| == 1
    requires d < |root| && root[d] == s[d] && root[..d + 1] == s[..d + 1]
    ensures RootSegment(bases, root, d) == ServerSegment(all, s, d)
  {
    var lb := Low(all, s, d);
    assert lb == bases[ArrayKey(s, d)];
    OneRootIndex(lb, s[d].indices);
    assert RootSegment(bases, root, d).indices == ServerSegment(all, s, d).indices;
  }

  lemma OneRootIndex(lb: nat, ix: seq<nat>)
    requires |ix| == 1 && lb <= ix[0]
    ensures RootIndices(lb, ix) == ix[0 := ix[0] - lb]
  {
  }

  // ---------------------------------------------------------------- from the layout and back

  /** The table keys are stripped paths already, so normalizing the table only drops the bounds that are not positive. */
  lemma TableKeyParses(s: seq<Segment>, d: nat)
    requires WfPath(s) && d < |s|
    ensures ParsedKey(ArrayKey(s, d)).Some? && StripIndices(ParsedKey(ArrayKey(s, d)).value) == ArrayKey(s, d)
  {
    var plain := seq(d + 1, k requires 0 <= k < d + 1 => Segment(s[k].name, []));
    forall k | 0 <= k < d + 1 ensures WfSegment(plain[k]) { assert s[k] in s; }
    assert WfPath(plain);
    forall k | 0 <= k < d + 1 ensures RenderSegments(plain)[k] == s[k].name { assert RenderIndices([]) == ""; }
    assert RenderSegments(plain) == Names(s[..d + 1]);
    assert Names(plain) == Names(s[..d + 1]);
    ParseRender(plain);
  }

  lemma {:induction false} NormalizedTable(bs: seq<(string, int)>)
    requires DistinctKeys(bs)
    requires forall i: nat | i < |bs| :: ParsedKey(bs[i].0).Some? && StripIndices(ParsedKey(bs[i].0).value) == bs[i].0
    ensures forall k | k in NormalizedBases(bs) :: exists i: nat :: i < |bs| && bs[i] == (k, NormalizedBases(bs)[k]) && bs[i].1 > 0
    ensures forall i: nat | i < |bs| && bs[i].1 > 0 :: bs[i].0 in NormalizedBases(bs) && NormalizedBases(bs)[bs[i].0] == bs[i].1
  {
    if bs != [] {
      var init := bs[..|bs| - 1];
      NormalizedTable(init);
      forall k | k in NormalizedBases(bs) ensures exists i: nat :: i < |bs| && bs[i] == (k, NormalizedBases(bs)[k]) && bs[i].1 > 0 {
        if k in NormalizedBases(init) && k != bs[|bs| - 1].0 {
          var i: nat :| i < |init| && init[i] == (k, NormalizedBases(init)[k]) && init[i].1 > 0;
          assert bs[i] == init[i];
        } else {
          assert bs[|bs| - 1] == (k, NormalizedBases(bs)[k]);
        }
      }
      forall i: nat | i < |bs| && bs[i].1 > 0 ensures bs[i].0 in NormalizedBases(bs) && NormalizedBases(bs)[bs[i].0] == bs[i].1 {
        if i < |init| { assert bs[i] == init[i]; }
      }
    }
  }

  lemma TableKey(all: set<seq<Segment>>, bases: Bases, key: string)
    requires IsBases(all, bases) && key in bases && forall s | s in all :: WfPath(s)
    ensures ParsedKey(key).Some? && StripIndices(ParsedKey(key).value) == key
  {
    assert SmallestSeen(all, key, bases[key]);
    var s: seq<Segment>, d: nat :| s in all && IsElement(s, d) && ArrayKey(s, d) == key;
    TableKeyParses(s, d);
  }

  lemma NormalizedIsPositive(all: set<seq<Segment>>, bases: Bases, bs: seq<(string, int)>)
    requires IsBases(all, bases) && Lists(bs, bases) && forall s | s in all :: WfPath(s)
    ensures NormalizedBases(bs) == PositiveOnly(bases)
  {
    forall i: nat | i < |bs| ensures ParsedKey(bs[i].0).Some? && StripIndices(ParsedKey(bs[i].0).value) == bs[i].0 {
      TableKey(all, bases, bs[i].0);
    }
    NormalizedTable(bs);
    forall k | k in PositiveOnly(bases) ensures k in NormalizedBases(bs) && NormalizedBases(bs)[k] == bases[k] {
      var i: nat :| i < |bs| && bs[i].0 == k;
    }
  }

  /** What browsing the server gives: each layout path under its server name, with some value (a node id, a kind). */
  function Browsed<V>(layout: seq<string>, values: seq<V>): seq<(string, V)>
    requires |values| == |layout|
  {
    seq(|layout|, k requires 0 <= k < |layout| => (ServerKey(layout, layout[k]), values[k]))
  }

  ghost predicate FlatLayout(layout: seq<string>) {
    && CanonicalLayout(layout)
    && (forall j, k | 0 <= j < k < |layout| :: layout[j] != layout[k])
    && OneDimensional(LayoutPaths(layout))
  }

  lemma BrowsedKey(layout: seq<string>, k: nat)
    requires FlatLayout(layout) && k < |layout|
    ensures var w := ServerPath(LayoutPaths(layout), Segments(layout[k]));
      WfPath(w) && ServerKey(layout, layout[k]) == Render(w) && ParsedKey(ServerKey(layout, layout[k])) == Some(w)
  {
    var s := Segments(layout[k]);
    LayoutMember(layout, k);
    ServerKeyIsServerPath(layout, s, |s|);
    assert s[..|s|] == s;
    var w := ServerPath(LayoutPaths(layout), s);
    assert w[..|w|] == w;
    ServerPathWf(LayoutPaths(layout), s, |s|);
    ParseRender(w);
  }

  lemma BrowsedPaths<V>(layout: seq<string>, values: seq<V>)
    requires FlatLayout(layout) && |values| == |layout|
    ensures Paths(Entries(Browsed(layout, values))) == ServerPaths(LayoutPaths(layout))
  {
    var m, all := Browsed(layout, values), LayoutPaths(layout);
    forall w | w in ServerPaths(all) ensures w in Paths(Entries(m)) {
      var s: seq<Segment> :| s in all && w == ServerPath(all, s);
      var k: nat :| k < |layout| && ParsePath(layout[k]).Ok? && s == Segments(layout[k]);
      BrowsedKey(layout, k);
      assert Entries(m)[k].segs == Some(w);
    }
    forall w | w in Paths(Entries(m)) ensures w in ServerPaths(all) {
      var k: nat :| k < |m| && Entries(m)[k].segs == Some(w);
      BrowsedKey(layout, k);
      LayoutMember(layout, k);
    }
  }

  lemma BrowsedDistinct<V>(layout: seq<string>, values: seq<V>)
    requires FlatLayout(layout) && |values| == |layout|
    ensures DistinctKeys(Browsed(layout, values)) && Tame(Browsed(layout, values))
  {
    var m, all := Browsed(layout, values), LayoutPaths(layout);
    forall k | 0 <= k < |m| ensures Canonical(m[k].0) { BrowsedKey(layout, k); }
    forall j, k | 0 <= j < k < |m| ensures m[j].0 != m[k].0 {
      BrowsedKey(layout, j);
      BrowsedKey(layout, k);
      LayoutMember(layout, j);
      LayoutMember(layout, k);
      var s, t := Segments(layout[j]), Segments(layout[k]);
      if m[j].0 == m[k].0 { ServerPathInjective(all, s, t); }
    }
  }

  lemma ServerPathInjective(all: set<seq<Segment>>, s: seq<Segment>, t: seq<Segment>)
    requires s in all && t in all && ServerPath(all, s) == ServerPath(all, t)
    ensures s == t
  {
    assert |s| == |ServerPath(all, s)| == |t|;
    ServerPrefixInjective(all, s, t, |s|);
    assert s[..|s|] == s && t[..|t|] == t;
  }

  /** Naming the members as the server does and rebasing the browsed map with the layout's own lower bounds gives every
      layout path back, each with its value, whenever the instances of each array share their bounds. */
  lemma LayoutSurvivesServer<V>(layout: seq<string>, values: seq<V>, bases: Bases, bs: seq<(string, int)>)
    requires FlatLayout(layout) && |values| == |layout|
    requires IsBases(LayoutPaths(layout), bases) && SharedBounds(LayoutPaths(layout), bases) && Lists(bs, bases)
    ensures var out := Rebased(NormalizedBases(bs), Browsed(layout, values));
      |out| == |layout| && forall k: nat | k < |layout| :: layout[k] in out && out[layout[k]] == values[k]
  {
    var m, all := Browsed(layout, values), LayoutPaths(layout);
    LayoutPathsWf(layout);
    NormalizedIsPositive(all, bases, bs);
    BrowsedPaths(layout, values);
    BrowsedDistinct(layout, values);
    ServerNamesFit(all, bases);
    RebaseKeepsElements(PositiveOnly(bases), m);
    forall k: nat | k < |layout| ensures NewKey(PositiveOnly(bases), m, k) == layout[k] {
      BrowsedKey(layout, k);
      LayoutMember(layout, k);
      SharedDeclared(all, bases, Segments(layout[k]));
    }
    forall k: nat | k < |layout|
      ensures var out := Rebased(NormalizedBases(bs), m); layout[k] in out && out[layout[k]] == values[k]
    {
      assert m[k].1 == values[k];
    }
  }
}
