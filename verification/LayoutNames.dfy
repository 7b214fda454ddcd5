/** The text side of `SimOpcua`: the simulated server's naming as string code (`apps/gr-console/src/sim_opcua.rs`), the
    lower bounds read off layout paths (`crates/opcua-cmd/src/nodemap.rs:116-160`), and the round trip on whole maps. */
module LayoutNames {
  import opened Wrappers
  import opened Text
  import opened Path
  import opened NodeMap
  import opened Rebase
  import opened RebaseLaws
  import opened SimOpcua

  // ---------------------------------------------------------------- numbers with a sign

  const I64_END: int := 0x8000_0000_0000_0000

  /** `str::parse::<i64>()` */
  function ParseI64(s: string): Option<int> {
    var t := if |s| > 1 && (s[0] == '+' || s[0] == '-') then s[1..] else s;
    if t == "" || !AllDigits(t) then None
    else
      var v: int := if t != s && s[0] == '-' then -(DigitsValue(t) as int) else DigitsValue(t);
      if -I64_END <= v < I64_END then Some(v) else None
  }

  function IntText(i: int): string {
    if i < 0 then "-" + Decimal(-i) else Decimal(i)
  }

  lemma ParseI64Decimal(i: nat)
    requires i < U32_END
    ensures ParseI64(Decimal(i)) == Some(i)
  {
    DecimalValue(i);
    assert Decimal(i)[0] in Decimal(i);
  }

  /** Any number of 64 bits is read back from its text, with a minus or an optional plus; a larger one is refused. */
  lemma ParseI64Exactly(i: int)
    ensures ParseI64(IntText(i)) == if -0x8000_0000_0000_0000 <= i < 0x8000_0000_0000_0000 then Some(i) else None
    ensures i >= 0 ==> ParseI64("+" + Decimal(i)) == ParseI64(IntText(i))
  {
    var d := Decimal(if i < 0 then -i else i);
    DecimalValue(if i < 0 then -i else i);
    assert d[0] in d;
    assert ("-" + d)[1..] == d && ("+" + d)[1..] == d;
  }

  // ---------------------------------------------------------------- lower bounds from text

  /** The index that `p` has right after `head`, which ends in `[`. */
  function HeadIndex(p: string, head: string): Option<int> {
    if head <= p then
      var rest := p[|head|..];
      ParseI64(rest[..IndexOf(rest, ']')])
    else None
  }

  function LowestIndex(all: seq<string>, head: string): Option<int> {
    if all == [] then None
    else
      match (HeadIndex(all[0], head), LowestIndex(all[1..], head))
      case (None, r) => r
      case (Some(i), None) => Some(i)
      case (Some(i), Some(j)) => Some(if i <= j then i else j)
  }

  /** `lower_bound`: smallest index of the array among the layout paths. */
  function LowerBound(all: seq<string>, arrayPath: string): int {
    match LowestIndex(all, arrayPath + "[")
    case None => 0
    case Some(i) => i
  }

  /** A path that no layout path goes on from with an index begins at 0. */
  lemma NoElementNoBound(all: seq<string>, arrayPath: string)
    requires forall k | 0 <= k < |all| :: HeadIndex(all[k], arrayPath + "[").None?
    ensures LowerBound(all, arrayPath) == 0
  {
    LowestIndexIsLowest(all, arrayPath + "[");
  }

  lemma {:induction false} LowestIndexIsLowest(all: seq<string>, head: string)
    ensures LowestIndex(all, head).None? ==> forall k | 0 <= k < |all| :: HeadIndex(all[k], head).None?
    ensures LowestIndex(all, head).Some? ==> exists k :: 0 <= k < |all| && HeadIndex(all[k], head) == LowestIndex(all, head)
    ensures forall k | 0 <= k < |all| && HeadIndex(all[k], head).Some? ::
      LowestIndex(all, head).Some? && LowestIndex(all, head).value <= HeadIndex(all[k], head).value
  {
    if all != [] {
      LowestIndexIsLowest(all[1..], head);
      forall k | 0 < k < |all| ensures all[k] == all[1..][k - 1] {}
      if LowestIndex(all[1..], head).Some? {
        var k :| 0 <= k < |all[1..]| && HeadIndex(all[1..][k], head) == LowestIndex(all[1..], head);
        assert HeadIndex(all[k + 1], head) == LowestIndex(all[1..], head);
      }
    }
  }

  // ---------------------------------------------------------------- the text before an index names the array instance

  function ArrayHead(q: seq<Segment>, name: string): string {
    Render(q + [Segment(name, [])]) + "["
  }

  /** `s` goes through `q` and then an element of the array `name`. */
  predicate Through(q: seq<Segment>, name: string, s: seq<Segment>) {
    |s| > |q| && s[..|q|] == q && s[|q|].name == name && s[|q|].indices != []
  }

  function Tail(s: seq<Segment>): string
    requires s != []
  {
    if |s| == 1 then "" else "." + Render(s[1..])
  }

  lemma RenderHeadTail(s: seq<Segment>)
    requires s != []
    ensures Render(s) == RenderSegment(s[0]) + Tail(s)
  {
    assert RenderSegments(s)[1..] == RenderSegments(s[1..]);
  }

  /** Where the name that `s` starts with ends. */
  function NameEnd(s: string): (i: nat)
    ensures i <= |s|
  {
    if s == "" || s[0] == '[' || s[0] == '.' then 0 else 1 + NameEnd(s[1..])
  }

  lemma {:induction false} NameEndIs(name: string, s: string)
    requires '[' !in name && '.' !in name && name <= s
    requires |s| == |name| || s[|name|] == '[' || s[|name|] == '.'
    ensures NameEnd(s) == |name|
  {
    if name != "" {
      assert s[0] == name[0] && name[0] in name;
      NameEndIs(name[1..], s[1..]);
    }
  }

  lemma NameOf(s: seq<Segment>)
    requires WfPath(s) && s != []
    ensures var n := s[0].name;
      n <= Render(s) && NameEnd(Render(s)) == |n| && (s[0].indices != [] <==> |Render(s)| > |n| && Render(s)[|n|] == '[')
  {
    var r, n := Render(s), s[0].name;
    RenderHeadTail(s);
    assert s[0] in s;
    RenderIndicesChars(s[0].indices);
    var rest := RenderIndices(s[0].indices) + Tail(s);
    assert r == n + rest;
    assert rest != "" ==> r[|n|] == rest[0];
    NameEndIs(n, r);
  }

  lemma HeadOfFirst(name: string, s: seq<Segment>)
    requires WfName(name) && WfPath(s)
    ensures name + "[" <= Render(s) <==> Through([], name, s)
  {
    if s != [] {
      NameOf(s);
      if name + "[" <= Render(s) {
        assert Render(s)[|name|] == '[' && Render(s)[..|name|] == name;
        NameEndIs(name, Render(s));
      }
    }
  }

  lemma IndexText(i: nat, more: string)
    requires i < U32_END
    ensures var rest := Decimal(i) + "]" + more; ParseI64(rest[..IndexOf(rest, ']')]) == Some(i)
  {
    var d := Decimal(i);
    var rest := d + "]" + more;
    forall k | 0 <= k < |d| ensures rest[k] != ']' { assert rest[k] == d[k] && d[k] in d; }
    IndexOfUnique(rest, ']', |d|);
    ParseI64Decimal(i);
    assert rest[..|d|] == d;
  }

  lemma IndexAfterFirst(name: string, s: seq<Segment>)
    requires WfName(name) && WfPath(s) && Through([], name, s)
    ensures name + "[" <= Render(s) && HeadIndex(Render(s), name + "[") == Some(s[0].indices[0])
  {
    var i, more := s[0].indices[0], RenderIndices(s[0].indices[1..]) + Tail(s);
    assert s[0] in s;
    RenderHeadTail(s);
    NameThenIndex(name, Decimal(i), RenderIndices(s[0].indices[1..]), Tail(s));
    RestAfter(name + "[", Decimal(i) + "]" + more, Render(s));
    IndexText(i, more);
    HeadIndexUnfold(Render(s), name + "[");
  }

  lemma NameThenIndex(name: string, d: string, ix: string, tail: string)
    ensures name + ("[" + d + "]" + ix) + tail == name + "[" + (d + "]" + (ix + tail))
  {
  }

  lemma HeadIndexUnfold(p: string, head: string)
    requires head <= p
    ensures HeadIndex(p, head) == ParseI64(p[|head|..][..IndexOf(p[|head|..], ']')])
  {
  }

  lemma RestAfter(head: string, rest: string, r: string)
    requires r == head + rest
    ensures head <= r && r[|head|..] == rest
  {
  }

  lemma FirstDot(s: seq<Segment>)
    requires WfPath(s) && s != []
    ensures IndexOf(Render(s), '.') == |RenderSegment(s[0])|
    ensures |Render(s)| == |RenderSegment(s[0])| <==> |s| == 1
  {
    var r, f := Render(s), RenderSegment(s[0]);
    RenderHeadTail(s);
    assert s[0] in s;
    RenderSegmentShape(s[0]);
    forall k | 0 <= k < |f| ensures r[k] != '.' { assert r[k] == f[k] && f[k] in f; }
    IndexOfUnique(r, '.', |f|);
  }

  lemma ArrayHeadCons(q: seq<Segment>, name: string)
    requires q != []
    ensures ArrayHead(q, name) == RenderSegment(q[0]) + "." + ArrayHead(q[1..], name)
  {
    var whole := q + [Segment(name, [])];
    RenderHeadTail(whole);
    assert whole[1..] == q[1..] + [Segment(name, [])];
  }

  /** A text that starts with `a.` and continues as a printed path starts with the printed first segment. */
  lemma SameFirstSegment(g: Segment, more: string, s: seq<Segment>)
    requires WfSegment(g) && WfPath(s) && RenderSegment(g) + "." + more <= Render(s)
    ensures |s| > 1 && s[0] == g && more <= Render(s[1..])
  {
    var r, f := Render(s), RenderSegment(g);
    assert r[|f|] == '.' && r[..|f|] == f;
    RenderSegmentShape(g);
    assert s != [];
    FirstDot(s);
    forall k | 0 <= k < |f| ensures r[k] != '.' { assert r[k] == f[k] && f[k] in f; }
    IndexOfUnique(r, '.', |f|);
    RenderHeadTail(s);
    assert RenderSegment(s[0]) == r[..|f|] == f;
    assert s[0] in s;
    SegmentOfRendered(g);
    SegmentOfRendered(s[0]);
    assert r == f + "." + Render(s[1..]);
    assert (f + "." + more)[|f| + 1..] == more && r[|f| + 1..] == Render(s[1..]);
  }

  lemma {:induction false} ArrayHeadMatches(q: seq<Segment>, name: string, s: seq<Segment>)
    requires WfPath(q) && WfName(name) && WfPath(s)
    ensures HeadIndex(Render(s), ArrayHead(q, name)) == if Through(q, name, s) then Some(s[|q|].indices[0]) else None
    decreases |q|
  {
    if q == [] {
      assert [] + [Segment(name, [])] == [Segment(name, [])];
      assert ArrayHead(q, name) == name + "[";
      HeadOfFirst(name, s);
      if Through([], name, s) { IndexAfterFirst(name, s); }
    } else {
      var head, more := ArrayHead(q, name), ArrayHead(q[1..], name);
      var f := RenderSegment(q[0]);
      ArrayHeadCons(q, name);
      assert q[0] in q && forall x | x in q[1..] :: x in q;
      if head <= Render(s) { SameFirstSegment(q[0], more, s); }
      if |s| > 1 && s[0] == q[0] {
        assert forall x | x in s[1..] :: x in s;
        ArrayHeadMatches(q[1..], name, s[1..]);
        RenderHeadTail(s);
        assert Render(s) == f + "." + Render(s[1..]);
        SameRest(f + ".", more, Render(s[1..]));
        ThroughTail(q, name, s);
      }
    }
  }

  lemma SameRest(a: string, more: string, r: string)
    ensures HeadIndex(a + r, a + more) == HeadIndex(r, more)
  {
    if more <= r {
      assert (a + r)[..|a + more|] == a + r[..|more|] == a + more;
      assert (a + r)[|a + more|..] == r[|more|..];
    }
    if a + more <= a + r { assert (a + r)[|a|..] == r && (a + more)[|a|..] == more; }
  }

  lemma ThroughTail(q: seq<Segment>, name: string, s: seq<Segment>)
    requires q != [] && |s| > 1 && s[0] == q[0]
    ensures Through(q, name, s) <==> Through(q[1..], name, s[1..])
  {
    if |s| > |q| {
      assert s[..|q|] == [s[0]] + s[1..][..|q| - 1];
      assert q == [q[0]] + q[1..];
      assert s[1..][|q| - 1] == s[|q|];
      if s[..|q|] == q { assert s[1..][..|q| - 1] == s[..|q|][1..]; }
    }
  }

  // ---------------------------------------------------------------- layouts

  /** A layout: canonical member paths. */
  ghost predicate CanonicalLayout(layout: seq<string>) {
    forall k | 0 <= k < |layout| :: Canonical(layout[k])
  }

  function Segments(path: string): seq<Segment> {
    match ParsePath(path)
    case Ok(ss) => ss
    case Err(_) => []
  }

  function LayoutPaths(layout: seq<string>): set<seq<Segment>> {
    set k | 0 <= k < |layout| && ParsePath(layout[k]).Ok? :: Segments(layout[k])
  }

  lemma LayoutMember(layout: seq<string>, k: nat)
    requires CanonicalLayout(layout) && k < |layout|
    ensures Segments(layout[k]) in LayoutPaths(layout) && WfPath(Segments(layout[k])) && Render(Segments(layout[k])) == layout[k]
  {
    ParsePathWf(layout[k]);
  }

  lemma LayoutPathsWf(layout: seq<string>)
    requires CanonicalLayout(layout)
    ensures forall s | s in LayoutPaths(layout) :: WfPath(s)
  {
    forall s | s in LayoutPaths(layout) ensures WfPath(s) {
      var k: nat :| k < |layout| && ParsePath(layout[k]).Ok? && s == Segments(layout[k]);
      LayoutMember(layout, k);
    }
  }

  lemma HeadIndexOfMember(layout: seq<string>, s: seq<Segment>, d: nat, k: nat)
    requires CanonicalLayout(layout) && WfPath(s) && IsElement(s, d) && k < |layout|
    ensures var t := Segments(layout[k]);
      HeadIndex(layout[k], InstanceKey(s, d) + "[") == if Sibling(s, t, d) then Some(t[d].indices[0]) else None
  {
    LayoutMember(layout, k);
    InstanceKeyRenders(s, d);
    assert s[d] in s && forall x | x in s[..d] :: x in s;
    ArrayHeadMatches(s[..d], s[d].name, Segments(layout[k]));
  }

  /** The text scan of `lower_bound` finds the smallest index of the array instance. */
  lemma LowerBoundIsLow(layout: seq<string>, s: seq<Segment>, d: nat)
    requires CanonicalLayout(layout) && s in LayoutPaths(layout) && WfPath(s) && IsElement(s, d)
    ensures LowerBound(layout, InstanceKey(s, d)) == Low(LayoutPaths(layout), s, d)
  {
    var all, head := LayoutPaths(layout), InstanceKey(s, d) + "[";
    LowestIndexIsLowest(layout, head);
    var low := LowWitness(all, s, d);
    var a: nat :| a < |layout| && ParsePath(layout[a]).Ok? && low == Segments(layout[a]);
    HeadIndexOfMember(layout, s, d, a);
    assert HeadIndex(layout[a], head) == Some(Low(all, s, d));
    var k: nat :| k < |layout| && HeadIndex(layout[k], head) == LowestIndex(layout, head);
    HeadIndexOfMember(layout, s, d, k);
    LayoutMember(layout, k);
    LowIsLow(all, s, d, Segments(layout[k]));
  }

  // ---------------------------------------------------------------- the server's name of a path, as string code

  function LastIndexOf(s: string, c: char): (r: Option<nat>)
    ensures r.Some? ==> r.value < |s|
  {
    if s == "" then None else if s[|s| - 1] == c then Some(|s| - 1) else LastIndexOf(s[..|s| - 1], c)
  }

  /** `path.rfind('.')`: parent path and last segment. */
  function SplitLast(path: string): (r: (string, string))
    ensures path != "" ==> |r.0| < |path|
  {
    match LastIndexOf(path, '.')
    case None => ("", path)
    case Some(i) => (path[..i], path[i + 1..])
  }

  function TrimClosing(s: string): string {
    if s != "" && s[|s| - 1] == ']' then TrimClosing(s[..|s| - 1]) else s
  }

  /** `split_seg` */
  function SplitSeg(seg: string): (string, Option<int>) {
    var i := IndexOf(seg, '[');
    if i == |seg| then (seg, None) else (seg[..i], ParseI64(TrimClosing(seg[i + 1..])))
  }

  /** The part of the server's name that one segment gives. */
  function ServerPart(layout: seq<string>, parent: string, seg: string): string {
    match SplitSeg(seg)
    case (name, None) => name
    case (name, Some(i)) =>
      name + "[" + IntText(i - LowerBound(layout, (if parent == "" then "" else parent + ".") + name)) + "]"
  }

  /** The key that browsing the simulated server gives for the member `path`. */
  function ServerKey(layout: seq<string>, path: string): string
    decreases |path|
  {
    if path == "" then ""
    else
      var (parent, seg) := SplitLast(path);
      var front := ServerKey(layout, parent);
      (if front == "" then "" else front + ".") + ServerPart(layout, parent, seg)
  }

  lemma {:induction false} LastIndexOfIs(s: string, c: char, i: nat)
    requires i < |s| && s[i] == c && forall k | i < k < |s| :: s[k] != c
    ensures LastIndexOf(s, c) == Some(i)
    decreases |s|
  {
    if i < |s| - 1 { LastIndexOfIs(s[..|s| - 1], c, i); }
  }

  lemma {:induction false} NoLastIndex(s: string, c: char)
    requires c !in s
    ensures LastIndexOf(s, c) == None
  {
    if s != "" { NoLastIndex(s[..|s| - 1], c); }
  }

  lemma SplitLastOfRendered(init: seq<Segment>, g: Segment)
    requires WfPath(init) && WfSegment(g)
    ensures SplitLast(Render(init + [g])) == (Render(init), RenderSegment(g))
  {
    var f, p := RenderSegment(g), Render(init);
    RenderSegmentShape(g);
    RenderSnoc(init, g);
    if init == [] {
      NoLastIndex(f, '.');
    } else {
      var r := p + "." + f;
      forall k | |p| < k < |r| ensures r[k] != '.' { assert r[k] == f[k - |p| - 1] && f[k - |p| - 1] in f; }
      LastIndexOfIs(r, '.', |p|);
      assert r[..|p|] == p && r[|p| + 1..] == f;
    }
  }

  lemma RenderOneIndex(g: Segment)
    requires |g.indices| == 1
    ensures RenderSegment(g) == g.name + "[" + Decimal(g.indices[0]) + "]"
  {
    assert g.indices == [] + [g.indices[0]];
    RenderIndicesSnoc([], g.indices[0]);
  }

  lemma SplitSegOfRendered(g: Segment)
    requires WfSegment(g) && |g.indices| <= 1
    ensures SplitSeg(RenderSegment(g)) == (g.name, if g.indices == [] then None else Some(g.indices[0]))
  {
    var r := RenderSegment(g);
    RenderSegmentShape(g);
    assert r[..|g.name|] == g.name;
    if g.indices == [] {
      assert r == g.name;
    } else {
      var d := Decimal(g.indices[0]);
      RenderOneIndex(g);
      assert r[|g.name| + 1..] == d + "]";
      assert d[|d| - 1] in d;
      TrimOneClosing(d);
      ParseI64Decimal(g.indices[0]);
    }
  }

  lemma TrimOneClosing(d: string)
    requires d != "" && d[|d| - 1] != ']'
    ensures TrimClosing(d + "]") == d
  {
    assert (d + "]")[..|d|] == d;
  }

  lemma ServerPartPlain(layout: seq<string>, parent: string, g: Segment)
    requires WfSegment(g) && g.indices == []
    ensures ServerPart(layout, parent, RenderSegment(g)) == RenderSegment(g)
  {
    SplitSegOfRendered(g);
    assert RenderSegment(g) == g.name;
  }

  lemma ServerPartElement(layout: seq<string>, parent: string, g: Segment, lb: int)
    requires WfSegment(g) && |g.indices| == 1 && LowerBound(layout, (if parent == "" then "" else parent + ".") + g.name) == lb
    ensures ServerPart(layout, parent, RenderSegment(g)) == g.name + "[" + IntText(g.indices[0] - lb) + "]"
  {
    SplitSegOfRendered(g);
  }

  lemma ServerPartIsSegment(layout: seq<string>, s: seq<Segment>, d: nat)
    requires CanonicalLayout(layout) && s in LayoutPaths(layout) && WfPath(s) && d < |s| && |s[d].indices| <= 1
    ensures ServerPart(layout, Render(s[..d]), RenderSegment(s[d])) == RenderSegment(ServerSegment(LayoutPaths(layout), s, d))
  {
    assert s[d] in s;
    if s[d].indices == [] {
      ServerPartPlain(layout, Render(s[..d]), s[d]);
    } else {
      LowerBoundIsLow(layout, s, d);
      ServerPartElement(layout, Render(s[..d]), s[d], Low(LayoutPaths(layout), s, d));
      ServerElementText(LayoutPaths(layout), s, d);
    }
  }

  lemma ServerElementText(all: set<seq<Segment>>, s: seq<Segment>, d: nat)
    requires d < |s| && |s[d].indices| == 1
    ensures RenderSegment(ServerSegment(all, s, d)) == s[d].name + "[" + IntText(s[d].indices[0] - Low(all, s, d)) + "]"
  {
    RenderOneIndex(ServerSegment(all, s, d));
  }

  lemma ServerSegmentWf(all: set<seq<Segment>>, s: seq<Segment>, d: nat)
    requires d < |s| && WfSegment(s[d])
    ensures WfSegment(ServerSegment(all, s, d))
  {
  }

  lemma ServerPathWf(all: set<seq<Segment>>, s: seq<Segment>, n: nat)
    requires WfPath(s) && n <= |s|
    ensures WfPath(ServerPath(all, s)[..n])
  {
    forall d | 0 <= d < n ensures WfSegment(ServerPath(all, s)[d]) {
      assert s[d] in s;
      ServerSegmentWf(all, s, d);
    }
  }

  /** One segment more on both sides: the recursion of `ServerKey`. */
  lemma ServerKeyStep(layout: seq<string>, init: seq<Segment>, g: Segment, front: seq<Segment>, w: Segment)
    requires WfPath(init) && WfSegment(g) && WfPath(front) && WfSegment(w) && (init == [] <==> front == [])
    requires ServerKey(layout, Render(init)) == Render(front)
    requires ServerPart(layout, Render(init), RenderSegment(g)) == RenderSegment(w)
    ensures ServerKey(layout, Render(init + [g])) == Render(front + [w])
  {
    SplitLastOfRendered(init, g);
    RenderSnoc(front, w);
    RenderShape(init + [g]);
    if front != [] { RenderShape(front); }
  }

  lemma PrefixSnoc(s: seq<Segment>, d: nat)
    requires d < |s|
    ensures s[..d + 1] == s[..d] + [s[d]]
    ensures WfPath(s) ==> WfPath(s[..d]) && WfSegment(s[d])
  {
    assert s[d] in s && forall x | x in s[..d] :: x in s;
  }

  lemma ServerKeyNext(layout: seq<string>, s: seq<Segment>, w: seq<Segment>, d: nat)
    requires CanonicalLayout(layout) && s in LayoutPaths(layout) && WfPath(s) && d < |s| && |s[d].indices| <= 1
    requires w == ServerPath(LayoutPaths(layout), s)
    requires ServerKey(layout, Render(s[..d])) == Render(w[..d])
    ensures ServerKey(layout, Render(s[..d + 1])) == Render(w[..d + 1])
  {
    PrefixSnoc(s, d);
    PrefixSnoc(w, d);
    ServerPartIsSegment(layout, s, d);
    ServerPathWf(LayoutPaths(layout), s, d);
    ServerSegmentWf(LayoutPaths(layout), s, d);
    ServerKeyStep(layout, s[..d], s[d], w[..d], w[d]);
  }

  /** Browsing the simulated server gives exactly the 0-based names of `SimOpcua.ServerPath`. */
  lemma {:induction false} ServerKeyIsServerPath(layout: seq<string>, s: seq<Segment>, n: nat)
    requires CanonicalLayout(layout) && s in LayoutPaths(layout) && WfPath(s) && n <= |s|
    requires forall d | 0 <= d < |s| :: |s[d].indices| <= 1
    ensures ServerKey(layout, Render(s[..n])) == Render(ServerPath(LayoutPaths(layout), s)[..n])
  {
    if n == 0 {
      assert s[..n] == [];
    } else {
      ServerKeyIsServerPath(layout, s, n - 1);
      ServerKeyNext(layout, s, ServerPath(LayoutPaths(layout), s), n - 1);
    }
  }
}
