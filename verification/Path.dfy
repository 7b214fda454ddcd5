/** Member paths: `crates/opcua-cmd/src/path.rs`.

    A path is a list of segments, a segment a name with zero or more array indices. The parser tolerates quotes and
    blanks; the printer writes the canonical form. Printing and parsing are inverse on well-formed segments. */
module Path {
  import opened Wrappers
  import opened Text

  datatype Segment = Segment(name: string, indices: seq<nat>)

  datatype PathError = Empty | MissingName | UnexpectedClose | TrailingCharacters | MissingClose | BadIndex

  // ---------------------------------------------------------------- printing

  function RenderIndices(ix: seq<nat>): string {
    if ix == [] then "" else "[" + Decimal(ix[0]) + "]" + RenderIndices(ix[1..])
  }

  function RenderSegment(s: Segment): string {
    s.name + RenderIndices(s.indices)
  }

  function RenderSegments(ss: seq<Segment>): (parts: seq<string>)
    ensures |parts| == |ss|
    ensures forall i | 0 <= i < |ss| :: parts[i] == RenderSegment(ss[i])
  {
    if ss == [] then [] else [RenderSegment(ss[0])] + RenderSegments(ss[1..])
  }

  function Render(ss: seq<Segment>): string {
    Join(RenderSegments(ss), '.')
  }

  lemma {:induction false} RenderIndicesSnoc(ix: seq<nat>, i: nat)
    ensures RenderIndices(ix + [i]) == RenderIndices(ix) + "[" + Decimal(i) + "]"
  {
    if ix != [] {
      RenderIndicesSnoc(ix[1..], i);
      assert (ix + [i])[1..] == ix[1..] + [i];
    }
  }

  /** `Segment::render`: pushes the name, then every index in brackets. */
  method RenderSegmentLoop(s: Segment) returns (out: string)
    ensures out == RenderSegment(s)
  {
    out := s.name;
    for k := 0 to |s.indices|
      invariant out == s.name + RenderIndices(s.indices[..k])
    {
      RenderIndicesSnoc(s.indices[..k], s.indices[k]);
      assert s.indices[..k + 1] == s.indices[..k] + [s.indices[k]];
      out := out + "[" + Decimal(s.indices[k]) + "]";
    }
    assert s.indices[..|s.indices|] == s.indices;
  }

  // ---------------------------------------------------------------- parsing

  predicate FitU32(ix: seq<nat>) {
    forall k | 0 <= k < |ix| :: ix[k] < U32_END
  }

  function DropQuotes(s: string): (t: string)
    ensures |t| <= |s|
  {
    if s == "" then "" else (if s[0] == '"' then "" else [s[0]]) + DropQuotes(s[1..])
  }

  function StripQuotes(s: string): (t: string)
    ensures Trimmed(t)
  {
    Trim(DropQuotes(s))
  }

  /** The indices in `rest`, which starts right after the name. */
  function IndicesOf(rest: string): (r: Result<seq<nat>, PathError>)
    ensures r.Ok? ==> FitU32(r.value)
    decreases |rest|
  {
    if rest == "" then Ok([])
    else if rest[0] != '[' then Err(TrailingCharacters)
    else
      var inner := rest[1..];
      var close := IndexOf(inner, ']');
      if close == |inner| then Err(MissingClose)
      else
        match ParseU32(Trim(inner[..close]))
        case None => Err(BadIndex)
        case Some(i) =>
          match IndicesOf(TrimStart(inner[close + 1..]))
          case Err(e) => Err(e)
          case Ok(more) => Ok([i] + more)
  }

  function SegmentOf(text: string): (r: Result<Segment, PathError>)
  {
    var raw := StripQuotes(text);
    if raw == "" then Err(Empty)
    else
      var pos := IndexOf(raw, '[');
      var name := Trim(raw[..pos]);
      if name == "" then Err(MissingName)
      else if ']' in name then Err(UnexpectedClose)
      else
        match IndicesOf(raw[pos..])
        case Err(e) => Err(e)
        case Ok(ix) => Ok(Segment(name, ix))
  }

  /** The indices read so far in front of what is still to be read. */
  function Prepend(read: seq<nat>, more: Result<seq<nat>, PathError>): (r: Result<seq<nat>, PathError>)
    ensures read == [] ==> r == more
    ensures more == Ok([]) ==> r == Ok(read)
  {
    match more
    case Err(e) => Err(e)
    case Ok(ix) =>
      assert [] + ix == ix && read + [] == read;
      Ok(read + ix)
  }

  /** The loop of `parse_segment` over the text after the name. */
  method ParseIndices(text: string) returns (r: Result<seq<nat>, PathError>)
    ensures r == IndicesOf(text)
  {
    var rest := text;
    var indices: seq<nat> := [];
    while rest != ""
      invariant IndicesOf(text) == Prepend(indices, IndicesOf(rest))
      decreases |rest|
    {
      if rest[0] != '[' { return Err(TrailingCharacters); }
      var inner := rest[1..];
      var close := IndexOf(inner, ']');
      if close == |inner| { return Err(MissingClose); }
      var idx := ParseU32(Trim(inner[..close]));
      if idx == None { return Err(BadIndex); }
      var next := TrimStart(inner[close + 1..]);
      PrependSnoc(indices, idx.value, IndicesOf(next));
      indices, rest := indices + [idx.value], next;
    }
    return Ok(indices);
  }

  lemma PrependSnoc(read: seq<nat>, i: nat, more: Result<seq<nat>, PathError>)
    ensures Prepend(read + [i], more) == Prepend(read, Prepend([i], more))
  {
    if more.Ok? { assert read + [i] + more.value == read + ([i] + more.value); }
  }

  /** `parse_segment` against the recursive reading `SegmentOf`. */
  method ParseSegment(text: string) returns (r: Result<Segment, PathError>)
    ensures r == SegmentOf(text)
  {
    var raw := StripQuotes(text);
    if raw == "" { return Err(Empty); }
    var pos := IndexOf(raw, '[');
    var name := Trim(raw[..pos]);
    if name == "" { return Err(MissingName); }
    if ']' in name { return Err(UnexpectedClose); }
    var ix := ParseIndices(raw[pos..]);
    match ix
    case Err(e) => return Err(e);
    case Ok(indices) => return Ok(Segment(name, indices));
  }

  function ParsePath(path: string): Result<seq<Segment>, PathError> {
    var p := Trim(path);
    if p == "" then Ok([]) else Collect(SegmentOf, Split(p, '.'))
  }

  function NormalizePath(path: string): Result<string, PathError> {
    match ParsePath(path)
    case Err(e) => Err(e)
    case Ok(ss) => Ok(Render(ss))
  }

  // ---------------------------------------------------------------- well-formed segments

  predicate WfName(n: string) {
    n != "" && Trimmed(n) && '"' !in n && '[' !in n && ']' !in n && '.' !in n
  }

  predicate WfSegment(s: Segment) {
    WfName(s.name) && FitU32(s.indices)
  }

  predicate WfPath(ss: seq<Segment>) {
    forall s | s in ss :: WfSegment(s)
  }

  /** A key that the parser and the printer agree on. */
  predicate Canonical(key: string) {
    NormalizePath(key) == Ok(key)
  }

  // ---------------------------------------------------------------- parsing undoes printing

  lemma {:induction false} RenderIndicesChars(ix: seq<nat>)
    ensures forall c | c in RenderIndices(ix) :: c == '[' || c == ']' || IsDigit(c)
    ensures ix != [] ==> RenderIndices(ix)[0] == '[' && RenderIndices(ix)[|RenderIndices(ix)| - 1] == ']'
  {
    if ix != [] { RenderIndicesChars(ix[1..]); }
  }

  lemma IndicesOfBracket(d: string, more: string, i: nat, ix: seq<nat>)
    requires ']' !in d && Trim(d) == d && ParseU32(d) == Some(i)
    requires TrimStart(more) == more && IndicesOf(more) == Ok(ix)
    ensures IndicesOf("[" + d + "]" + more) == Ok([i] + ix)
  {
    var rest := "[" + d + "]" + more;
    var inner := rest[1..];
    assert inner == d + "]" + more;
    IndexOfUnique(inner, ']', |d|);
    assert inner[..|d|] == d && inner[|d| + 1..] == more;
  }

  lemma IndicesOfDecimal(i: nat, more: string, ix: seq<nat>)
    requires i < U32_END && TrimStart(more) == more && IndicesOf(more) == Ok(ix)
    ensures IndicesOf("[" + Decimal(i) + "]" + more) == Ok([i] + ix)
  {
    DecimalTrimmed(i);
    ParseDecimal(i);
    IndicesOfBracket(Decimal(i), more, i, ix);
  }

  lemma RenderIndicesTrimmed(ix: seq<nat>)
    ensures TrimStart(RenderIndices(ix)) == RenderIndices(ix)
  {
    RenderIndicesChars(ix);
  }

  lemma {:induction false} IndicesOfRendered(ix: seq<nat>)
    requires FitU32(ix)
    ensures IndicesOf(RenderIndices(ix)) == Ok(ix)
    decreases |ix|
  {
    if ix == [] {
    } else {
      IndicesOfRendered(ix[1..]);
      RenderIndicesTrimmed(ix[1..]);
      IndicesOfDecimal(ix[0], RenderIndices(ix[1..]), ix[1..]);
      assert [ix[0]] + ix[1..] == ix;
    }
  }

  lemma {:induction false} DropQuotesKeeps(s: string)
    requires '"' !in s
    ensures DropQuotes(s) == s
  {
    if s != "" {
      assert s[0] in s;
      DropQuotesKeeps(s[1..]);
    }
  }

  lemma StripQuotesKeeps(s: string)
    requires '"' !in s && Trimmed(s)
    ensures StripQuotes(s) == s
  {
    DropQuotesKeeps(s);
    TrimKeeps(s);
  }

  lemma RenderSegmentShape(s: Segment)
    requires WfSegment(s)
    ensures RenderSegment(s) != "" && Trimmed(RenderSegment(s))
    ensures '"' !in RenderSegment(s) && '.' !in RenderSegment(s)
    ensures IndexOf(RenderSegment(s), '[') == |s.name|
  {
    var r := RenderSegment(s);
    RenderIndicesChars(s.indices);
    assert r[0] == s.name[0];
    forall k | 0 <= k < |s.name| ensures r[k] != '[' { assert r[k] == s.name[k] && s.name[k] in s.name; }
    IndexOfUnique(r, '[', |s.name|);
  }

  lemma SegmentOfRendered(s: Segment)
    requires WfSegment(s)
    ensures SegmentOf(RenderSegment(s)) == Ok(s)
  {
    var r := RenderSegment(s);
    RenderSegmentShape(s);
    StripQuotesKeeps(r);
    assert r[..|s.name|] == s.name && r[|s.name|..] == RenderIndices(s.indices);
    TrimKeeps(s.name);
    IndicesOfRendered(s.indices);
  }

  lemma {:induction false} RenderShape(ss: seq<Segment>)
    requires WfPath(ss) && ss != []
    ensures Render(ss) != "" && Trimmed(Render(ss)) && '"' !in Render(ss)
    ensures ss[0] in ss && Render(ss)[0] == ss[0].name[0]
  {
    assert ss[0] in ss;
    RenderSegmentShape(ss[0]);
    assert RenderSegment(ss[0])[0] == ss[0].name[0];
    if |ss| > 1 {
      assert forall s | s in ss[1..] :: s in ss;
      RenderShape(ss[1..]);
      assert RenderSegments(ss)[1..] == RenderSegments(ss[1..]);
    }
  }

  /** Parsing undoes printing, for every list of well-formed segments. */
  lemma ParseRender(ss: seq<Segment>)
    requires WfPath(ss)
    ensures ParsePath(Render(ss)) == Ok(ss)
  {
    if ss != [] {
      RenderShape(ss);
      var parts := RenderSegments(ss);
      forall i | 0 <= i < |ss| ensures '.' !in parts[i] && SegmentOf(parts[i]) == Ok(ss[i]) {
        assert ss[i] in ss;
        RenderSegmentShape(ss[i]);
        SegmentOfRendered(ss[i]);
      }
      SplitJoin(parts, '.');
      CollectOk(SegmentOf, parts, ss);
    }
  }

  lemma RenderInjective(a: seq<Segment>, b: seq<Segment>)
    requires WfPath(a) && WfPath(b) && Render(a) == Render(b)
    ensures a == b
  {
    ParseRender(a);
    ParseRender(b);
  }

  // ---------------------------------------------------------------- every parse result is well-formed

  lemma {:induction false} DropQuotesChars(s: string)
    ensures '"' !in DropQuotes(s) && forall c | c in DropQuotes(s) :: c in s
  {
    if s != "" { DropQuotesChars(s[1..]); }
  }

  lemma SegmentOfWf(text: string)
    requires SegmentOf(text).Ok? && '.' !in text
    ensures WfSegment(SegmentOf(text).value)
  {
    var raw := StripQuotes(text);
    var head := raw[..IndexOf(raw, '[')];
    DropQuotesChars(text);
    TrimChars(DropQuotes(text));
    TrimChars(head);
    forall c | c in Trim(head) ensures c != '"' && c != '[' && c != '.' { assert c in head && c in raw; }
  }

  lemma ParsePathWf(path: string)
    requires ParsePath(path).Ok?
    ensures WfPath(ParsePath(path).value)
  {
    var p := Trim(path);
    if p != "" {
      var parts := Split(p, '.');
      CollectedFrom(SegmentOf, parts);
      forall i | 0 <= i < |parts| ensures WfSegment(ParsePath(path).value[i]) {
        assert parts[i] in parts;
        SegmentOfWf(parts[i]);
      }
    }
  }

  // ---------------------------------------------------------------- normalization

  /** Normalizing twice is normalizing once, and the result is the one canonical spelling of the path: two spellings
      normalize to the same text exactly when they parse to the same segments. */
  lemma NormalizeCanonical(a: string, b: string)
    requires ParsePath(a).Ok? && ParsePath(b).Ok?
    ensures Canonical(NormalizePath(a).value)
    ensures NormalizePath(a) == NormalizePath(b) <==> ParsePath(a) == ParsePath(b)
  {
    ParsePathWf(a);
    ParsePathWf(b);
    ParseRender(ParsePath(a).value);
    ParseRender(ParsePath(b).value);
  }

  /** The canonical keys are exactly the printed forms of well-formed paths. */
  lemma CanonicalIffRendered(key: string)
    ensures Canonical(key) <==> exists ss | WfPath(ss) :: key == Render(ss)
  {
    if Canonical(key) {
      ParsePathWf(key);
      assert key == Render(ParsePath(key).value);
    }
    if ss :| WfPath(ss) && key == Render(ss) {
      ParseRender(ss);
    }
  }

  // ---------------------------------------------------------------- browsing: attaching a child to its parent

  /** The array index a browse name stands for by itself: `[2]` or `2`. */
  function BareIndex(t: string): (r: Option<nat>)
    ensures r.Some? ==> r.value < U32_END
  {
    var bare := if |t| >= 2 && t[0] == '[' && t[|t| - 1] == ']' then Trim(t[1..|t| - 1]) else t;
    if AllDigits(bare) then ParseU32(bare) else None
  }

  /** `join_child`: attaches a browse name to the parent's key, folding array elements into the parent's last segment. */
  function JoinChild(parent: string, childName: string): string {
    var t := StripQuotes(childName);
    if parent != "" && BareIndex(t).Some? then parent + "[" + Decimal(BareIndex(t).value) + "]"
    else JoinNamed(parent, t, SegmentOf(t), ParsePath(parent))
  }

  function JoinNamed(parent: string, t: string, child: Result<Segment, PathError>, segs: Result<seq<Segment>, PathError>): string {
    match (child, segs)
    case (Ok(c), Ok(ss)) =>
      if ss != [] && ExtendsSegment(c, ss[|ss| - 1]) then Render(ss[..|ss| - 1] + [c]) else JoinNew(parent, t)
    case _ => JoinNew(parent, t)
  }

  predicate ExtendsSegment(child: Segment, last: Segment) {
    child.name == last.name && |child.indices| > |last.indices| && child.indices[..|last.indices|] == last.indices
  }

  function JoinNew(parent: string, t: string): string {
    var norm := match NormalizePath(t) case Ok(n) => n case Err(_) => t;
    if parent == "" then norm else parent + "." + norm
  }

  /** `element_candidates`: the browse names a server may give element `i` of the node `name`. */
  function ElementCandidates(name: string, i: nat): seq<string> {
    [name + "[" + Decimal(i) + "]", "[" + Decimal(i) + "]", Decimal(i)]
  }

  function WithIndex(s: Segment, i: nat): Segment {
    s.(indices := s.indices + [i])
  }

  lemma {:induction false} JoinSnoc(parts: seq<string>, p: string, c: char)
    ensures Join(parts + [p], c) == if parts == [] then p else Join(parts, c) + [c] + p
  {
    if |parts| > 1 {
      JoinSnoc(parts[1..], p, c);
      assert (parts + [p])[1..] == parts[1..] + [p];
    }
  }

  lemma {:induction false} RenderSegmentsConcat(a: seq<Segment>, b: seq<Segment>)
    ensures RenderSegments(a + b) == RenderSegments(a) + RenderSegments(b)
  {
  }

  lemma RenderSnoc(ss: seq<Segment>, s: Segment)
    ensures Render(ss + [s]) == if ss == [] then RenderSegment(s) else Render(ss) + "." + RenderSegment(s)
  {
    RenderSegmentsConcat(ss, [s]);
    assert RenderSegments([s]) == [RenderSegment(s)];
    JoinSnoc(RenderSegments(ss), RenderSegment(s), '.');
  }

  lemma RenderWithIndex(init: seq<Segment>, last: Segment, i: nat)
    ensures Render(init + [WithIndex(last, i)]) == Render(init + [last]) + "[" + Decimal(i) + "]"
  {
    RenderSnoc(init, last);
    RenderSnoc(init, WithIndex(last, i));
    RenderSegmentWithIndex(last, i);
  }

  lemma DecimalUnquoted(i: nat)
    ensures StripQuotes(Decimal(i)) == Decimal(i)
    ensures StripQuotes("[" + Decimal(i) + "]") == "[" + Decimal(i) + "]"
  {
    var d := Decimal(i);
    assert d[0] in d && d[|d| - 1] in d;
    StripQuotesKeeps(d);
    StripQuotesKeeps("[" + d + "]");
  }

  lemma BareIndexOfDecimal(i: nat)
    requires i < U32_END
    ensures BareIndex(Decimal(i)) == Some(i)
    ensures BareIndex("[" + Decimal(i) + "]") == Some(i)
  {
    var d := Decimal(i);
    assert d[0] in d;
    ParseDecimal(i);
    var t := "[" + d + "]";
    assert t[1..|t| - 1] == d;
    DecimalTrimmed(i);
  }

  lemma RenderSegmentWithIndex(s: Segment, i: nat)
    ensures RenderSegment(WithIndex(s, i)) == RenderSegment(s) + "[" + Decimal(i) + "]"
  {
    RenderIndicesSnoc(s.indices, i);
  }

  lemma JoinElement(init: seq<Segment>, last: Segment, child: Segment)
    requires WfPath(init) && WfSegment(last) && WfSegment(child) && ExtendsSegment(child, last)
    ensures JoinChild(Render(init + [last]), RenderSegment(child)) == Render(init + [child])
  {
    ElementNotBare(child);
    SegmentOfRendered(child);
    ParseRender(init + [last]);
    JoinExtends(Render(init + [last]), RenderSegment(child), init, last, child);
  }

  lemma JoinExtends(parent: string, t: string, init: seq<Segment>, last: Segment, child: Segment)
    requires ExtendsSegment(child, last)
    ensures JoinNamed(parent, t, Ok(child), Ok(init + [last])) == Render(init + [child])
  {
    var ss := init + [last];
    assert ss[|ss| - 1] == last && ss[..|ss| - 1] == init;
  }

  lemma ElementNotBare(s: Segment)
    requires WfSegment(s) && s.indices != []
    ensures StripQuotes(RenderSegment(s)) == RenderSegment(s) && BareIndex(RenderSegment(s)) == None
  {
    var t := RenderSegment(s);
    RenderSegmentShape(s);
    StripQuotesKeeps(t);
    RenderIndicesChars(s.indices);
    assert t[0] == s.name[0] && s.name[0] in s.name;
    assert t[|s.name|] in t && !IsDigit(t[|s.name|]);
  }

  /** Whichever of the three names the server uses for element `i`, browsing it gives the same canonical key. */
  lemma ElementNamesAgree(init: seq<Segment>, last: Segment, i: nat, name: string)
    requires WfPath(init) && WfSegment(last) && i < U32_END
    requires name in ElementCandidates(RenderSegment(last), i)
    ensures JoinChild(Render(init + [last]), name) == Render(init + [WithIndex(last, i)])
  {
    if name == RenderSegment(last) + "[" + Decimal(i) + "]" {
      RenderSegmentWithIndex(last, i);
      JoinElement(init, last, WithIndex(last, i));
    } else {
      RenderShape(init + [last]);
      RenderWithIndex(init, last, i);
      DecimalUnquoted(i);
      BareIndexOfDecimal(i);
    }
  }

  /** The name is not one of digits alone: it cannot be taken for an index. */
  lemma NameNotBare(s: Segment)
    requires WfSegment(s) && !AllDigits(s.name)
    ensures StripQuotes(RenderSegment(s)) == RenderSegment(s) && BareIndex(RenderSegment(s)) == None
  {
    if s.indices != [] {
      ElementNotBare(s);
    } else {
      RenderSegmentShape(s);
      StripQuotesKeeps(RenderSegment(s));
      assert RenderSegment(s) == s.name && s.name[0] in s.name;
    }
  }

  lemma NewSegment(ss: seq<Segment>, child: Segment)
    requires WfPath(ss) && WfSegment(child)
    ensures JoinNew(Render(ss), RenderSegment(child)) == Render(ss + [child])
  {
    ParseRender([child]);
    RenderSnoc([], child);
    assert [] + [child] == [child];
    RenderSnoc(ss, child);
    if ss != [] { RenderShape(ss); }
  }

  lemma NotExtended(parent: string, ss: seq<Segment>, child: Segment)
    requires ss == [] || !ExtendsSegment(child, ss[|ss| - 1])
    ensures JoinNamed(parent, RenderSegment(child), Ok(child), Ok(ss)) == JoinNew(parent, RenderSegment(child))
  {
  }

  /** Browsing any other member below a node gives the key of the node and one more segment, at the root that segment alone. A member
      of digits is taken for an index unless it is at the root. */
  lemma MemberIsAppended(ss: seq<Segment>, child: Segment)
    requires WfPath(ss) && WfSegment(child)
    requires ss == [] || (!AllDigits(child.name) && !ExtendsSegment(child, ss[|ss| - 1]))
    ensures JoinChild(Render(ss), RenderSegment(child)) == Render(ss + [child])
  {
    RenderSegmentShape(child);
    StripQuotesKeeps(RenderSegment(child));
    SegmentOfRendered(child);
    ParseRender(ss);
    NewSegment(ss, child);
    NotExtended(Render(ss), ss, child);
    if ss != [] { NameNotBare(child); }
  }

  /** A name that is no segment, or a name below a key that is no path, is appended as it normalizes, or as it is. */
  lemma OddNameIsAppended(parent: string, childName: string)
    requires SegmentOf(StripQuotes(childName)).Err? || ParsePath(parent).Err?
    requires parent == "" || BareIndex(StripQuotes(childName)).None?
    ensures var t := StripQuotes(childName);
      var text := if NormalizePath(t).Ok? then NormalizePath(t).value else t;
      JoinChild(parent, childName) == if parent == "" then text else parent + "." + text
  {
  }
}
