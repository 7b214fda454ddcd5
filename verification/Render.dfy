/** Event text templates: `crates/evt-catalog/src/render.rs`. */
module Render {
  import opened Wrappers
  import opened Text

  datatype Field = Src | A | B | Code | Ctx

  datatype Fmt = Raw | Enum(name: string) | Bits(name: string) | Div(divisor: nat) | Hex | OnOff

  datatype Tok = Lit(s: string) | Val(field: Field, fmt: Fmt) | AlarmText | PlcName | Detail

  function FieldOf(s: string): Option<Field> {
    if s == "src" then Some(Src) else if s == "a" then Some(A) else if s == "b" then Some(B)
    else if s == "code" then Some(Code) else if s == "ctx" then Some(Ctx) else None
  }

  function Value(f: Option<Field>, fmt: Option<Fmt>): Option<Tok> {
    if f.Some? && fmt.Some? then Some(Val(f.value, fmt.value)) else None
  }

  function FmtOf(parts: seq<string>): Option<Fmt>
    requires parts != []
  {
    if |parts| == 1 then Some(Raw)
    else if |parts| == 2 then Some(if parts[1] == "hex" then Hex else if parts[1] == "onoff" then OnOff else Enum(Trim(parts[1])))
    else if |parts| == 3 && parts[1] == "bits" then Some(Bits(Trim(parts[2])))
    else None
  }

  /** What stands for `{body}`, if anything; never a literal. */
  function Placeholder(body: string): (t: Option<Tok>)
    ensures t.Some? ==> !t.value.Lit?
  {
    if body == "alarm" then Some(AlarmText)
    else if body == "plc" then Some(PlcName)
    else if body == "detail" then Some(Detail)
    else
      var i := IndexOf(body, '/');
      if i < |body| then
        var div := ParseU32(Trim(body[i + 1..]));
        Value(FieldOf(Trim(body[..i])), if div.Some? && div.value > 0 then Some(Div(div.value)) else None)
      else
        var parts := Split(body, ':');
        Value(FieldOf(Trim(parts[0])), FmtOf(parts))
  }

  // ---------------------------------------------------------------- reading a template from left to right

  /** What a braced body stands for: `Placeholder`. */
  type Reader = string -> Option<Tok>

  datatype Part = Char(c: char) | Hole(body: string, tok: Tok)

  /** The placeholder that `s`, a text after `{`, begins with. */
  function Opening(ph: Reader, s: string): Option<Part> {
    var j := IndexOf(s, '}');
    if j == |s| || ph(s[..j]).None? then None else Some(Hole(s[..j], ph(s[..j]).value))
  }

  function Scan(ph: Reader, s: string): seq<Part> {
    if s == "" then []
    else if s[0] == '{' && Opening(ph, s[1..]).Some? then
      [Opening(ph, s[1..]).value] + Scan(ph, s[|Opening(ph, s[1..]).value.body| + 2..])
    else [Char(s[0])] + Scan(ph, s[1..])
  }

  function Flush(lit: string): seq<Tok> {
    if lit == "" then [] else [Lit(lit)]
  }

  /** The characters between two placeholders make one literal. */
  function Merge(lit: string, parts: seq<Part>): seq<Tok>
    decreases |parts|
  {
    if parts == [] then Flush(lit)
    else
      match parts[0]
      case Char(c) => Merge(lit + [c], parts[1..])
      case Hole(_, tok) => Flush(lit) + [tok] + Merge("", parts[1..])
  }

  lemma {:induction false} MergePlain(ph: Reader, lit: string, s: string, i: nat)
    requires i <= |s| && forall k | 0 <= k < i :: s[k] != '{'
    ensures Merge(lit, Scan(ph, s)) == Merge(lit + s[..i], Scan(ph, s[i..]))
    decreases i
  {
    if i == 0 {
      assert lit + s[..0] == lit && s[0..] == s;
    } else {
      MergePlain(ph, lit + [s[0]], s[1..], i - 1);
      assert lit + [s[0]] + s[1..][..i - 1] == lit + s[..i] && s[1..][i - 1..] == s[i..];
      assert Scan(ph, s)[1..] == Scan(ph, s[1..]);
    }
  }

  lemma MergeBrace(ph: Reader, lit: string, s: string)
    requires s != "" && s[0] == '{'
    ensures Opening(ph, s[1..]).None? ==> Merge(lit, Scan(ph, s)) == Merge(lit + "{", Scan(ph, s[1..]))
    ensures Opening(ph, s[1..]).Some? ==>
      Merge(lit, Scan(ph, s)) == Flush(lit) + [Opening(ph, s[1..]).value.tok] + Merge("", Scan(ph, s[|Opening(ph, s[1..]).value.body| + 2..]))
  {
    if Opening(ph, s[1..]).None? {
      assert Scan(ph, s)[1..] == Scan(ph, s[1..]);
    } else {
      assert Scan(ph, s)[1..] == Scan(ph, s[|Opening(ph, s[1..]).value.body| + 2..]);
    }
  }

  /** What the next `{`, at position `i`, makes of the tokens. */
  lemma AtBrace(ph: Reader, lit: string, rest: string, i: nat, after: string)
    requires i < |rest| && rest[i] == '{' && (forall k | 0 <= k < i :: rest[k] != '{') && after == rest[i + 1..]
    ensures Opening(ph, after).None? ==> Merge(lit, Scan(ph, rest)) == Merge(lit + rest[..i] + "{", Scan(ph, after))
    ensures Opening(ph, after).Some? ==>
      Merge(lit, Scan(ph, rest)) == Flush(lit + rest[..i]) + [Opening(ph, after).value.tok] + Merge("", Scan(ph, after[|Opening(ph, after).value.body| + 1..]))
  {
    MergePlain(ph, lit, rest, i);
    MergeBrace(ph, lit + rest[..i], rest[i..]);
    assert rest[i..][1..] == after;
    if Opening(ph, after).Some? {
      var n := |Opening(ph, after).value.body|;
      assert rest[i..][n + 2..] == after[n + 1..];
    }
  }

  /** No `{` is left. */
  lemma AtEnd(ph: Reader, lit: string, rest: string)
    requires forall k | 0 <= k < |rest| :: rest[k] != '{'
    ensures Merge(lit, Scan(ph, rest)) == Flush(lit + rest)
  {
    MergePlain(ph, lit, rest, |rest|);
    assert rest[..|rest|] == rest && rest[|rest|..] == "";
  }

  /** A literal, if any, and a value go to the end of what was read. */
  lemma Append(out: seq<Tok>, lit: string, tok: Tok, more: seq<Tok>)
    ensures out + (Flush(lit) + [tok] + more) == (if lit != "" then out + [Lit(lit)] else out) + [tok] + more
  {
  }

  /** The placeholder that follows a `{`, with the text behind it. */
  function NextHole(ph: Reader, after: string): (r: Option<(Tok, string)>)
    ensures r.Some? <==> Opening(ph, after).Some?
    ensures r.Some? ==> r.value == (Opening(ph, after).value.tok, after[|Opening(ph, after).value.body| + 1..]) && |r.value.1| < |after|
  {
    var j := IndexOf(after, '}');
    if j < |after| && ph(after[..j]).Some? then Some((ph(after[..j]).value, after[j + 1..])) else None
  }

  /** The loop of `parse`, whatever a body stands for. */
  method ParseWith(text: string, ph: Reader) returns (out: seq<Tok>)
    ensures out == Merge("", Scan(ph, text))
  {
    out := [];
    var lit, rest := "", text;
    var i := IndexOf(rest, '{');
    while i < |rest|
      invariant Merge("", Scan(ph, text)) == out + Merge(lit, Scan(ph, rest))
      invariant i == IndexOf(rest, '{')
      decreases |rest|
    {
      var after := rest[i + 1..];
      AtBrace(ph, lit, rest, i, after);
      lit := lit + rest[..i];
      var hole := NextHole(ph, after);
      if hole.Some? {
        Append(out, lit, hole.value.0, Merge("", Scan(ph, hole.value.1)));
        if lit != "" { out := out + [Lit(lit)]; }
        lit := "";
        out := out + [hole.value.0];
        rest := hole.value.1;
      } else {
        lit := lit + "{";
        rest := after;
      }
      i := IndexOf(rest, '{');
    }
    AtEnd(ph, lit, rest);
    lit := lit + rest;
    if lit != "" { out := out + [Lit(lit)]; }
  }

  // ---------------------------------------------------------------- the tokens partition the template

  /** The source text of each token. */
  function Pieces(lit: string, parts: seq<Part>): seq<string>
    decreases |parts|
  {
    if parts == [] then (if lit == "" then [] else [lit])
    else
      match parts[0]
      case Char(c) => Pieces(lit + [c], parts[1..])
      case Hole(body, _) => (if lit == "" then [] else [lit]) + ["{" + body + "}"] + Pieces("", parts[1..])
  }

  function Concat(pieces: seq<string>): string {
    if pieces == [] then "" else pieces[0] + Concat(pieces[1..])
  }

  lemma {:induction false} ConcatOf(a: seq<string>, b: seq<string>)
    ensures Concat(a + b) == Concat(a) + Concat(b)
  {
    if a == [] {
      assert a + b == b;
    } else {
      ConcatOf(a[1..], b);
      assert (a + b)[1..] == a[1..] + b;
    }
  }

  /** `piece` is the source of `tok`: the literal itself, or a braced body that stands for it. */
  predicate SourceOf(ph: Reader, tok: Tok, piece: string) {
    if tok.Lit? then piece == tok.s && piece != ""
    else |piece| >= 2 && piece[0] == '{' && piece[|piece| - 1] == '}' && ph(piece[1..|piece| - 1]) == Some(tok)
  }

  predicate AllSources(ph: Reader, toks: seq<Tok>, pieces: seq<string>) {
    |toks| == |pieces| && forall k | 0 <= k < |toks| :: SourceOf(ph, toks[k], pieces[k])
  }

  predicate NoTwoLiterals(toks: seq<Tok>) {
    forall k | 0 < k < |toks| :: !(toks[k - 1].Lit? && toks[k].Lit?)
  }

  lemma OpeningIsHole(ph: Reader, s: string)
    requires Opening(ph, s).Some?
    ensures var h := Opening(ph, s).value; h.Hole? && |h.body| + 1 <= |s| && s[..|h.body|] == h.body && s[|h.body|] == '}' && ph(h.body) == Some(h.tok)
  {
  }

  predicate Sound(ph: Reader, parts: seq<Part>) {
    forall k | 0 <= k < |parts| :: parts[k].Hole? ==> ph(parts[k].body) == Some(parts[k].tok)
  }

  lemma {:induction false} ScanSound(ph: Reader, s: string)
    ensures Sound(ph, Scan(ph, s))
    decreases |s|
  {
    if s != "" {
      if s[0] == '{' && Opening(ph, s[1..]).Some? {
        OpeningIsHole(ph, s[1..]);
        ScanSound(ph, s[|Opening(ph, s[1..]).value.body| + 2..]);
      } else {
        ScanSound(ph, s[1..]);
      }
    }
  }

  lemma {:induction false} MergeSources(ph: Reader, lit: string, parts: seq<Part>)
    requires Sound(ph, parts) && NoLiterals(ph)
    ensures AllSources(ph, Merge(lit, parts), Pieces(lit, parts)) && NoTwoLiterals(Merge(lit, parts))
    decreases |parts|
  {
    if parts != [] {
      match parts[0]
      case Char(c) => MergeSources(ph, lit + [c], parts[1..]);
      case Hole(body, tok) =>
        MergeSources(ph, "", parts[1..]);
        var piece := "{" + body + "}";
        assert piece[1..|piece| - 1] == body;
        assert SourceOf(ph, tok, piece);
        Joined(ph, Flush(lit), if lit == "" then [] else [lit], tok, piece, Merge("", parts[1..]), Pieces("", parts[1..]));
    }
  }

  lemma Joined(ph: Reader, front: seq<Tok>, frontPieces: seq<string>, tok: Tok, piece: string, rest: seq<Tok>, restPieces: seq<string>)
    requires AllSources(ph, front, frontPieces) && |front| <= 1 && SourceOf(ph, tok, piece) && !tok.Lit?
    requires AllSources(ph, rest, restPieces) && NoTwoLiterals(rest)
    ensures AllSources(ph, front + [tok] + rest, frontPieces + [piece] + restPieces) && NoTwoLiterals(front + [tok] + rest)
  {
    Follows(ph, [tok], [piece], rest, restPieces);
    Follows(ph, front, frontPieces, [tok] + rest, [piece] + restPieces);
    assert front + [tok] + rest == front + ([tok] + rest) && frontPieces + [piece] + restPieces == frontPieces + ([piece] + restPieces);
  }

  lemma Follows(ph: Reader, a: seq<Tok>, pa: seq<string>, b: seq<Tok>, pb: seq<string>)
    requires AllSources(ph, a, pa) && AllSources(ph, b, pb) && NoTwoLiterals(a) && NoTwoLiterals(b)
    requires a != [] && b != [] ==> !(a[|a| - 1].Lit? && b[0].Lit?)
    ensures AllSources(ph, a + b, pa + pb) && NoTwoLiterals(a + b)
  {
    forall k | 0 <= k < |a + b| ensures SourceOf(ph, (a + b)[k], (pa + pb)[k]) {
      if k >= |a| { assert SourceOf(ph, b[k - |a|], pb[k - |a|]); }
    }
    forall k | 0 < k < |a + b| ensures !((a + b)[k - 1].Lit? && (a + b)[k].Lit?) {
      if k > |a| { assert (a + b)[k - 1] == b[k - |a| - 1] && (a + b)[k] == b[k - |a|]; }
    }
  }

  lemma PiecesOfHole(lit: string, piece: string, rest: seq<string>)
    ensures Concat((if lit == "" then [] else [lit]) + [piece] + rest) == lit + piece + Concat(rest)
  {
    var head := if lit == "" then [] else [lit];
    ConcatOf(head + [piece], rest);
    ConcatOf(head, [piece]);
    assert [piece][1..] == [] && [lit][1..] == [];
  }

  lemma ScanHole(ph: Reader, s: string, lit: string)
    requires s != "" && s[0] == '{' && Opening(ph, s[1..]).Some?
    ensures var h := Opening(ph, s[1..]).value;
      && |h.body| + 2 <= |s| && s[1..][..|h.body|] == h.body && s[1..][|h.body|] == '}'
      && Pieces(lit, Scan(ph, s)) == (if lit == "" then [] else [lit]) + ["{" + h.body + "}"] + Pieces("", Scan(ph, s[|h.body| + 2..]))
  {
    OpeningIsHole(ph, s[1..]);
    assert Scan(ph, s)[1..] == Scan(ph, s[|Opening(ph, s[1..]).value.body| + 2..]);
  }

  lemma ScanChar(ph: Reader, s: string, lit: string)
    requires s != "" && !(s[0] == '{' && Opening(ph, s[1..]).Some?)
    ensures Pieces(lit, Scan(ph, s)) == Pieces(lit + [s[0]], Scan(ph, s[1..]))
  {
    assert Scan(ph, s)[1..] == Scan(ph, s[1..]);
  }

  lemma {:induction false} PiecesConcat(ph: Reader, lit: string, s: string)
    ensures Concat(Pieces(lit, Scan(ph, s))) == lit + s
    decreases |s|
  {
    if s == "" {
      NoPieces(lit);
    } else if s[0] == '{' && Opening(ph, s[1..]).Some? {
      ScanHole(ph, s, lit);
      var body := Opening(ph, s[1..]).value.body;
      PiecesConcat(ph, "", s[|body| + 2..]);
      HoleConcat(lit, s, body, Pieces("", Scan(ph, s[|body| + 2..])));
    } else {
      ScanChar(ph, s, lit);
      PiecesConcat(ph, lit + [s[0]], s[1..]);
      CharConcat(lit, s);
    }
  }

  lemma NoPieces(lit: string)
    ensures Concat(Pieces(lit, [])) == lit + ""
  {
    if lit != "" { assert [lit][1..] == []; }
  }

  lemma CharConcat(lit: string, s: string)
    requires s != ""
    ensures lit + [s[0]] + s[1..] == lit + s
  {
  }

  lemma HoleConcat(lit: string, s: string, body: string, more: seq<string>)
    requires |s| >= |body| + 2 && s[0] == '{' && s[1..][..|body|] == body && s[1..][|body|] == '}'
    requires Concat(more) == "" + s[|body| + 2..]
    ensures Concat((if lit == "" then [] else [lit]) + ["{" + body + "}"] + more) == lit + s
  {
    PiecesOfHole(lit, "{" + body + "}", more);
    SplitHole(lit, s, body);
  }

  lemma SplitHole(lit: string, s: string, body: string)
    requires |s| >= |body| + 2 && s[0] == '{' && s[1..][..|body|] == body && s[1..][|body|] == '}'
    ensures lit + ("{" + body + "}") + ("" + s[|body| + 2..]) == lit + s
  {
  }

  /** Bodies never stand for literals. */
  ghost predicate NoLiterals(ph: Reader) {
    forall body :: ph(body).Some? ==> !ph(body).value.Lit?
  }

  lemma PartitionWith(ph: Reader, text: string)
    requires NoLiterals(ph)
    ensures var toks, pieces := Merge("", Scan(ph, text)), Pieces("", Scan(ph, text));
      Concat(pieces) == text && AllSources(ph, toks, pieces) && NoTwoLiterals(toks)
  {
    ScanSound(ph, text);
    MergeSources(ph, "", Scan(ph, text));
    PiecesConcat(ph, "", text);
  }

  /** The tokens of a template are the template cut into pieces: literals, none empty and no two side by side, and braced
      bodies that stand for a value. */
  lemma TokensPartition(text: string)
    ensures var toks, pieces := Merge("", Scan(Placeholder, text)), Pieces("", Scan(Placeholder, text));
      Concat(pieces) == text && AllSources(Placeholder, toks, pieces) && NoTwoLiterals(toks)
  {
    PartitionWith(Placeholder, text);
  }

  /** `parse` */
  method Parse(text: string) returns (out: seq<Tok>)
    ensures out == Merge("", Scan(Placeholder, text))
    ensures exists pieces :: Concat(pieces) == text && AllSources(Placeholder, out, pieces) && NoTwoLiterals(out)
  {
    TokensPartition(text);
    out := ParseWith(text, Placeholder);
  }

  // ---------------------------------------------------------------- placeholders, said in their texts

  /** The name of a field in a template. */
  function NameOf(f: Field): string {
    match f
    case Src => "src"
    case A => "a"
    case B => "b"
    case Code => "code"
    case Ctx => "ctx"
  }

  predicate ReadsParts(body: string, f: Field, fmt: Fmt, parts: seq<string>) {
    parts != [] && (forall p | p in parts :: ':' !in p) && body == Join(parts, ':') && Trim(parts[0]) == NameOf(f) && ReadsWords(parts, fmt)
  }

  predicate ReadsWords(parts: seq<string>, fmt: Fmt) {
    match fmt
    case Raw => |parts| == 1
    case Hex => |parts| == 2 && parts[1] == "hex"
    case OnOff => |parts| == 2 && parts[1] == "onoff"
    case Enum(name) => |parts| == 2 && parts[1] != "hex" && parts[1] != "onoff" && name == Trim(parts[1])
    case Bits(name) => |parts| == 3 && parts[1] == "bits" && name == Trim(parts[2])
    case Div(_) => false
  }

  predicate ReadsDivisor(body: string, f: Field, n: nat, a: string, b: string) {
    body == a + "/" + b && '/' !in a && Trim(a) == NameOf(f) && ParseU32(Trim(b)) == Some(n)
  }

  lemma FieldNames(s: string, f: Field)
    ensures FieldOf(s) == Some(f) <==> s == NameOf(f)
  {
    assert "src" != "a" && "src" != "b" && |"src"| == |"ctx"| && "src"[0] != "ctx"[0] && "a"[0] != "b"[0] && |"code"| == 4;
  }

  lemma FormatWords(parts: seq<string>, fmt: Fmt)
    requires parts != []
    ensures FmtOf(parts) == Some(fmt) <==> ReadsWords(parts, fmt)
  {
    assert |"hex"| != |"onoff"|;
  }

  lemma ValueOf(name: string, fmt: Option<Fmt>, f: Field, g: Fmt)
    ensures Value(FieldOf(name), fmt) == Some(Val(f, g)) <==> name == NameOf(f) && fmt == Some(g)
  {
    FieldNames(name, f);
  }

  lemma WordsRead(body: string, f: Field, fmt: Fmt, parts: seq<string>)
    requires ReadsParts(body, f, fmt, parts)
    ensures parts == Split(body, ':')
  {
    SplitJoin(parts, ':');
  }

  lemma WordsAreParts(body: string, f: Field, fmt: Fmt, parts: seq<string>)
    requires parts == Split(body, ':')
    ensures Value(FieldOf(Trim(parts[0])), FmtOf(parts)) == Some(Val(f, fmt)) <==> exists ps :: ReadsParts(body, f, fmt, ps)
  {
    JoinSplit(body, ':');
    ValueOf(Trim(parts[0]), FmtOf(parts), f, fmt);
    FormatWords(parts, fmt);
    if Value(FieldOf(Trim(parts[0])), FmtOf(parts)) == Some(Val(f, fmt)) { assert ReadsParts(body, f, fmt, parts); }
    if ps :| ReadsParts(body, f, fmt, ps) { WordsRead(body, f, fmt, ps); }
  }

  lemma SlashRead(body: string, f: Field, n: nat, a: string, b: string)
    requires ReadsDivisor(body, f, n, a, b)
    ensures IndexOf(body, '/') == |a| < |body| && body[..|a|] == a && body[|a| + 1..] == b
  {
    forall k | 0 <= k < |a| ensures body[k] != '/' { assert body[k] == a[k]; }
    IndexOfUnique(body, '/', |a|);
  }

  lemma Slashed(body: string, a: string, b: string)
    requires IndexOf(body, '/') == |a| < |body| && body[..|a|] == a && body[|a| + 1..] == b
    ensures body == a + "/" + b && '/' !in a
  {
    assert body == body[..|a|] + [body[|a|]] + body[|a| + 1..];
    assert forall k | 0 <= k < |a| :: a[k] == body[k];
  }

  lemma SlashIsDivisor(body: string, f: Field, n: nat, a: string, b: string)
    requires IndexOf(body, '/') == |a| < |body| && body[..|a|] == a && body[|a| + 1..] == b
    ensures (Trim(a) == NameOf(f) && ParseU32(Trim(b)) == Some(n)) <==> exists c, d :: ReadsDivisor(body, f, n, c, d)
  {
    forall c, d | ReadsDivisor(body, f, n, c, d) ensures c == a && d == b { SlashRead(body, f, n, c, d); }
    if Trim(a) == NameOf(f) && ParseU32(Trim(b)) == Some(n) {
      Slashed(body, a, b);
      assert ReadsDivisor(body, f, n, a, b);
    }
  }

  /** The body with a divisor. */
  function Divided(a: string, b: string): Option<Tok> {
    var div := ParseU32(Trim(b));
    Value(FieldOf(Trim(a)), if div.Some? && div.value > 0 then Some(Div(div.value)) else None)
  }

  lemma DividedReads(a: string, b: string, f: Field, fmt: Fmt)
    ensures Divided(a, b) == Some(Val(f, fmt)) <==> fmt.Div? && fmt.divisor > 0 && Trim(a) == NameOf(f) && ParseU32(Trim(b)) == Some(fmt.divisor)
  {
    var div := ParseU32(Trim(b));
    ValueOf(Trim(a), if div.Some? && div.value > 0 then Some(Div(div.value)) else None, f, fmt);
  }

  /** A body with a slash reads as a field and a divisor, or as nothing. */
  lemma DivisorExactly(body: string, f: Field, fmt: Fmt)
    requires '/' in body && Plain(body)
    ensures Placeholder(body) == Some(Val(f, fmt)) <==> fmt.Div? && fmt.divisor > 0 && exists a, b :: ReadsDivisor(body, f, fmt.divisor, a, b)
  {
    var i := IndexOf(body, '/');
    NoSlash(body);
    assert Placeholder(body) == Divided(body[..i], body[i + 1..]);
    DividedReads(body[..i], body[i + 1..], f, fmt);
    if fmt.Div? { SlashIsDivisor(body, f, fmt.divisor, body[..i], body[i + 1..]); }
  }

  lemma WordsExactly(body: string, f: Field, fmt: Fmt)
    requires '/' !in body && Plain(body)
    ensures Placeholder(body) == Some(Val(f, fmt)) <==> exists parts :: ReadsParts(body, f, fmt, parts)
  {
    NoSlash(body);
    var parts := Split(body, ':');
    assert Placeholder(body) == Value(FieldOf(Trim(parts[0])), FmtOf(parts));
    WordsAreParts(body, f, fmt, parts);
  }

  lemma NoSlash(body: string)
    ensures IndexOf(body, '/') == |body| <==> '/' !in body
  {
    if IndexOf(body, '/') < |body| { assert body[IndexOf(body, '/')] == '/'; }
  }

  /** No word of its own. */
  predicate Plain(body: string) {
    body != "alarm" && body != "plc" && body != "detail"
  }

  /** What the body of a placeholder says: a word of its own, a field with a divisor behind a slash, or a field with up to two words
      behind colons. Blanks count nowhere but in the words `hex`, `onoff` and `bits`. */
  ghost predicate Reads(body: string, t: Tok) {
    match t
    case Lit(_) => false
    case AlarmText => body == "alarm"
    case PlcName => body == "plc"
    case Detail => body == "detail"
    case Val(f, fmt) =>
      Plain(body) && if '/' in body then fmt.Div? && fmt.divisor > 0 && exists a, b :: ReadsDivisor(body, f, fmt.divisor, a, b)
                     else exists parts :: ReadsParts(body, f, fmt, parts)
  }

  /** A body is a placeholder exactly when it reads as one, and stands for what it says. */
  lemma PlaceholderExactly(body: string, t: Tok)
    ensures Placeholder(body) == Some(t) <==> Reads(body, t)
  {
    if Plain(body) {
      if t.Val? {
        if '/' in body { DivisorExactly(body, t.field, t.fmt); } else { WordsExactly(body, t.field, t.fmt); }
      }
    } else {
      OwnWords(body);
    }
  }

  lemma OwnWords(body: string)
    requires !Plain(body)
    ensures Placeholder(body) == Some(if body == "alarm" then AlarmText else if body == "plc" then PlcName else Detail)
    ensures "alarm" != "plc" && "alarm" != "detail" && "plc" != "detail"
  {
    assert |"alarm"| == 5 && |"plc"| == 3 && |"detail"| == 6;
  }
}
