/** The ErrorList of one PLC: row codes, labels and the reading of catalog events. `crates/evt-catalog/src/errorlist.rs` */
module ErrorList {
  import opened Wrappers
  import opened Text

  datatype Level = Alarm | Warn | Operator | Info

  datatype Type = TyAlarm | TyWarn | TyOperator | TyInfo | TyTask

  datatype Trans = Raise | Clear | Momentary | Summary

  const CAT_ALARM := 6
  const CAT_OPERATOR := 18
  const CAT_INFO := 19
  const TRANS_MUL := 10_000

  function Upper(c: char): char {
    if 'a' <= c <= 'z' then (c as int - 32) as char else c
  }

  function UpperString(s: string): (u: string)
    ensures |u| == |s| && forall i | 0 <= i < |s| :: u[i] == Upper(s[i])
  {
    seq(|s|, i requires 0 <= i < |s| => Upper(s[i]))
  }

  // ---------------------------------------------------------------- row codes

  function TransId(t: Trans): nat {
    match t
    case Raise => 1
    case Clear => 2
    case Momentary => 3
    case Summary => 4
  }

  function TransFromId(n: nat): Option<Trans> {
    if n == 1 then Some(Raise) else if n == 2 then Some(Clear) else if n == 3 then Some(Momentary) else if n == 4 then Some(Summary) else None
  }

  function Category(l: Level): nat {
    match l
    case Alarm => CAT_ALARM
    case Warn => CAT_ALARM
    case Operator => CAT_OPERATOR
    case Info => CAT_INFO
  }

  datatype Row = Row(level: Level, trans: Trans, num: nat)

  /** Category, the source for alarm rows, code. */
  function Encode(r: Row): (nat, Option<nat>, nat) {
    (Category(r.level), if r.level == Alarm then Some(1) else if r.level == Warn then Some(2) else None, TransId(r.trans) * TRANS_MUL + r.num)
  }

  function Decode(cat: nat, src: nat, code: nat): Option<Row> {
    var trans := TransFromId(code / TRANS_MUL);
    var num := code % TRANS_MUL;
    if trans.None? || num == 0 then None
    else if cat == CAT_ALARM then
      if src == 1 then Some(Row(Alarm, trans.value, num)) else if src == 2 then Some(Row(Warn, trans.value, num)) else None
    else if cat == CAT_OPERATOR then Some(Row(Operator, trans.value, num))
    else if cat == CAT_INFO then Some(Row(Info, trans.value, num))
    else None
  }

  /** A row is read back, whatever the source of a row that has none, exactly when its number has one to four digits. */
  lemma DecodeEncode(r: Row, src: nat)
    requires Encode(r).1.Some? ==> Encode(r).1 == Some(src)
    ensures Decode(Encode(r).0, src, Encode(r).2) == Some(r) <==> 1 <= r.num < TRANS_MUL
  {
  }

  /** What is decoded encodes to the same category, source and code. */
  lemma EncodeDecode(cat: nat, src: nat, code: nat)
    requires Decode(cat, src, code).Some?
    ensures var (c, s, k) := Encode(Decode(cat, src, code).value);
      c == cat && k == code && (s.Some? <==> cat == CAT_ALARM) && (s.Some? ==> s.value == src)
  {
  }

  // ---------------------------------------------------------------- labels

  function Letter(l: Level): char {
    match l
    case Alarm => 'F'
    case Warn => 'W'
    case Operator => 'O'
    case Info => 'I'
  }

  function FromLetter(c: char): Option<Level> {
    var u := Upper(c);
    if u == 'F' then Some(Alarm) else if u == 'W' then Some(Warn) else if u == 'O' then Some(Operator) else if u == 'I' then Some(Info) else None
  }

  /** `{:04}` */
  function Pad4(n: nat): string {
    var d := Decimal(n);
    if |d| == 1 then "000" + d else if |d| == 2 then "00" + d else if |d| == 3 then "0" + d else d
  }

  function Label(l: Level, num: nat): string {
    [Letter(l)] + Pad4(num)
  }

  function ParseLabel(text: string): Option<(Level, nat)> {
    var s := Trim(text);
    if s == [] then None
    else
      var level, digits := FromLetter(s[0]), s[1..];
      if level.None? || |digits| != 4 || !AllDigits(digits) then None
      else
        var n := DigitsValue(digits);
        if n > 0 then Some((level.value, n)) else None
  }

  lemma DecimalLength(n: nat)
    ensures |Decimal(n)| == if n < 10 then 1 else if n < 100 then 2 else if n < 1000 then 3 else if n < 10000 then 4 else |Decimal(n / 10000)| + 4
  {
    if n >= 10 { assert Decimal(n) == Decimal(n / 10) + [DigitChar(n % 10)]; }
    if n >= 100 { assert Decimal(n / 10) == Decimal(n / 10 / 10) + [DigitChar(n / 10 % 10)]; }
    if n >= 1000 { assert Decimal(n / 10 / 10) == Decimal(n / 10 / 10 / 10) + [DigitChar(n / 10 / 10 % 10)]; }
    if n >= 10000 { assert Decimal(n / 10 / 10 / 10) == Decimal(n / 10 / 10 / 10 / 10) + [DigitChar(n / 10 / 10 / 10 % 10)]; }
    assert n / 10 / 10 / 10 / 10 == n / 10000;
  }

  lemma {:induction false} LeadingZero(d: string)
    requires AllDigits(d)
    ensures AllDigits("0" + d) && DigitsValue("0" + d) == DigitsValue(d)
  {
    if d == "" {
      assert "0" + d == "0" && "0"[..0] == "";
    } else {
      var front := d[..|d| - 1];
      assert forall c | c in front :: c in d;
      LeadingZero(front);
      assert ("0" + d)[..|d|] == "0" + front;
    }
  }

  lemma Pad4Value(n: nat)
    ensures AllDigits(Pad4(n)) && DigitsValue(Pad4(n)) == n
    ensures |Pad4(n)| == 4 <==> n < 10000
  {
    var d := Decimal(n);
    DecimalValue(n);
    DecimalLength(n);
    LeadingZero(d);
    LeadingZero("0" + d);
    LeadingZero("0" + ("0" + d));
    assert "0" + ("0" + d) == "00" + d && "0" + ("00" + d) == "000" + d;
  }

  lemma LabelTrimmed(l: Level, n: nat)
    ensures Trim(Label(l, n)) == Label(l, n) && Label(l, n)[1..] == Pad4(n)
  {
    var s := Label(l, n);
    Pad4Value(n);
    assert s[|s| - 1] in Pad4(n);
    TrimKeeps(s);
  }

  lemma LetterRead(l: Level)
    ensures FromLetter(Letter(l)) == Some(l)
  {
  }

  /** A label is read back exactly when its number has one to four digits; otherwise nothing is read. */
  lemma ParseOfLabel(l: Level, n: nat)
    ensures ParseLabel(Label(l, n)) == if 1 <= n <= 9999 then Some((l, n)) else None
  {
    LabelTrimmed(l, n);
    LetterRead(l);
    Pad4Value(n);
    assert Label(l, n)[0] == Letter(l);
  }

  // ---------------------------------------------------------------- entries

  /** `task` says whether the HMI class is TASK. */
  datatype Entry = Entry(given: Option<Level>, task: bool, code: string, num: nat, catalog: Option<string>, src: Option<nat>)

  function LevelOf(e: Entry): Level {
    if e.given.Some? then e.given.value
    else if e.code != "" && FromLetter(e.code[0]).Some? then FromLetter(e.code[0]).value
    else Info
  }

  function TypeOf(e: Entry): Type {
    match LevelOf(e)
    case Alarm => TyAlarm
    case Warn => TyWarn
    case Operator => TyOperator
    case Info => if e.task then TyTask else TyInfo
  }

  predicate Names(e: Entry, name: string) {
    e.catalog.Some? && UpperString(e.catalog.value) == name
  }

  datatype Index = Index(entries: seq<Entry>, byCode: map<(Level, nat), nat>, byCatalog: map<string, seq<nat>>)

  /** The positions of the entries that name the event, in order. */
  function Naming(entries: seq<Entry>, name: string): (ix: seq<nat>)
    ensures forall i: nat :: i in ix <==> i < |entries| && Names(entries[i], name)
    ensures forall j, k | 0 <= j < k < |ix| :: ix[j] < ix[k]
  {
    if entries == [] then []
    else
      var n := |entries| - 1;
      assert forall i: nat | i < n :: entries[..n][i] == entries[i];
      var front := Naming(entries[..n], name);
      assert forall j | 0 <= j < |front| :: front[j] in front;
      front + if Names(entries[n], name) then [n] else []
  }

  function CodeOf(e: Entry): (Level, nat) {
    (LevelOf(e), e.num)
  }

  predicate FirstWith(entries: seq<Entry>, k: (Level, nat), i: nat) {
    i < |entries| && CodeOf(entries[i]) == k && forall j | 0 <= j < i :: CodeOf(entries[j]) != k
  }

  /** The first entry of every code. */
  ghost predicate CodesIndexed(byCode: map<(Level, nat), nat>, entries: seq<Entry>) {
    && (forall k | k in byCode :: FirstWith(entries, k, byCode[k]))
    && (forall i | 0 <= i < |entries| :: CodeOf(entries[i]) in byCode)
  }

  /** All entries of every event that is named. */
  ghost predicate NamesIndexed(byCatalog: map<string, seq<nat>>, entries: seq<Entry>) {
    forall name :: NameIndexed(byCatalog, entries, name)
  }

  predicate NameIndexed(byCatalog: map<string, seq<nat>>, entries: seq<Entry>, name: string) {
    (name in byCatalog <==> Naming(entries, name) != []) && (name in byCatalog ==> byCatalog[name] == Naming(entries, name))
  }

  ghost predicate Indexed(x: Index, entries: seq<Entry>) {
    x.entries == entries && CodesIndexed(x.byCode, entries) && NamesIndexed(x.byCatalog, entries)
  }

  lemma NamingSnoc(entries: seq<Entry>, e: Entry, name: string)
    ensures Naming(entries + [e], name) == if Names(e, name) then Naming(entries, name) + [|entries|] else Naming(entries, name)
  {
    assert (entries + [e])[..|entries|] == entries;
  }

  function WithCode(byCode: map<(Level, nat), nat>, n: nat, e: Entry): map<(Level, nat), nat> {
    if CodeOf(e) in byCode then byCode else byCode[CodeOf(e) := n]
  }

  function WithName(byCatalog: map<string, seq<nat>>, n: nat, e: Entry): map<string, seq<nat>> {
    if e.catalog.None? then byCatalog
    else
      var name := UpperString(e.catalog.value);
      byCatalog[name := (if name in byCatalog then byCatalog[name] else []) + [n]]
  }

  lemma CodesStay(byCode: map<(Level, nat), nat>, entries: seq<Entry>, e: Entry)
    requires CodesIndexed(byCode, entries)
    ensures CodesIndexed(WithCode(byCode, |entries|, e), entries + [e])
  {
    var byCode' := WithCode(byCode, |entries|, e);
    forall k | k in byCode' ensures FirstWith(entries + [e], k, byCode'[k]) {
      if k in byCode { assert FirstWith(entries, k, byCode[k]); }
    }
  }

  /** A name that the new entry does not give. */
  lemma OtherName(byCatalog: map<string, seq<nat>>, entries: seq<Entry>, e: Entry, name: string)
    requires NameIndexed(byCatalog, entries, name) && !Names(e, name)
    ensures NameIndexed(WithName(byCatalog, |entries|, e), entries + [e], name)
  {
    NamingSnoc(entries, e, name);
  }

  lemma OwnName(byCatalog: map<string, seq<nat>>, entries: seq<Entry>, e: Entry, name: string)
    requires NameIndexed(byCatalog, entries, name) && Names(e, name)
    ensures NameIndexed(WithName(byCatalog, |entries|, e), entries + [e], name)
  {
    NamingSnoc(entries, e, name);
  }

  lemma NamesStay(byCatalog: map<string, seq<nat>>, entries: seq<Entry>, e: Entry)
    requires NamesIndexed(byCatalog, entries)
    ensures NamesIndexed(WithName(byCatalog, |entries|, e), entries + [e])
  {
    forall name ensures NameIndexed(WithName(byCatalog, |entries|, e), entries + [e], name) {
      assert NameIndexed(byCatalog, entries, name);
      if Names(e, name) { OwnName(byCatalog, entries, e, name); } else { OtherName(byCatalog, entries, e, name); }
    }
  }

  /** `new` */
  method New(entries: seq<Entry>) returns (x: Index)
    ensures Indexed(x, entries)
  {
    x := Index([], map[], map[]);
    for i := 0 to |entries|
      invariant x.entries == entries[..i] && Indexed(x, entries[..i])
    {
      CodesStay(x.byCode, entries[..i], entries[i]);
      NamesStay(x.byCatalog, entries[..i], entries[i]);
      assert entries[..i + 1] == entries[..i] + [entries[i]];
      x := Index(entries[..i + 1], WithCode(x.byCode, i, entries[i]), WithName(x.byCatalog, i, entries[i]));
    }
    assert entries[..|entries|] == entries;
  }

  /** `get`: the first entry with this level and number. */
  lemma GetIsFirst(x: Index, entries: seq<Entry>, k: (Level, nat))
    requires Indexed(x, entries)
    ensures k in x.byCode <==> exists i: nat :: FirstWith(entries, k, i)
    ensures k in x.byCode ==> FirstWith(entries, k, x.byCode[k])
  {
    if i: nat :| FirstWith(entries, k, i) { assert CodeOf(entries[i]) in x.byCode; }
  }

  // ---------------------------------------------------------------- reading catalog events

  predicate Within(entries: seq<Entry>, ix: seq<nat>) {
    forall k | 0 <= k < |ix| :: ix[k] < |entries|
  }

  /** The rows whose source is `src`. */
  function BySource(entries: seq<Entry>, ix: seq<nat>, src: nat): (r: seq<nat>)
    requires Within(entries, ix)
    ensures Within(entries, r) && forall i: nat :: i in r <==> i in ix && i < |entries| && entries[i].src == Some(src)
  {
    if ix == [] then [] else (if entries[ix[0]].src == Some(src) then [ix[0]] else []) + BySource(entries, ix[1..], src)
  }

  predicate Uniform(entries: seq<Entry>, ix: seq<nat>)
    requires Within(entries, ix)
  {
    forall k | 0 <= k < |ix| :: TypeOf(entries[ix[k]]) == TypeOf(entries[ix[0]])
  }

  /** `for_catalog`: the type of the event, and the entry when just one row speaks of it. */
  function ForCatalog(entries: seq<Entry>, event: string, src: nat): Option<(Type, Option<nat>)> {
    var ix := Naming(entries, UpperString(event));
    assert forall k | 0 <= k < |ix| :: ix[k] in ix;
    if ix == [] then None
    else
      var own := BySource(entries, ix, src);
      var pick := if own == [] then ix else own;
      if !Uniform(entries, pick) then None else Some((TypeOf(entries[pick[0]]), if |pick| == 1 then Some(pick[0]) else None))
  }

  datatype CatalogRef = CatalogRef(event: string, src: Option<nat>, ty: Type, code: Option<string>)

  function CodeAt(entries: seq<Entry>, i: Option<nat>): Option<string> {
    if i.Some? && i.value < |entries| then Some(entries[i.value].code) else None
  }

  function SingleCode(entries: seq<Entry>, ix: seq<nat>): Option<string>
    requires Within(entries, ix)
  {
    if |ix| == 1 then Some(entries[ix[0]].code) else None
  }

  /** Rows of one type: one entry for all sources. */
  predicate UniformRef(entries: seq<Entry>, ix: seq<nat>, r: CatalogRef)
    requires Within(entries, ix) && ix != []
  {
    r.src.None? && r.ty == TypeOf(entries[ix[0]]) && r.code == SingleCode(entries, ix)
  }

  /** Rows of several types: one entry for each source that settles the type. */
  predicate MixedRef(entries: seq<Entry>, ix: seq<nat>, r: CatalogRef)
    requires Within(entries, ix)
  {
    r.src.Some? && BySource(entries, ix, r.src.value) != []
      && var found := ForCatalog(entries, r.event, r.src.value);
        found.Some? && r.ty == found.value.0 && r.code == CodeAt(entries, found.value.1)
  }

  lemma NamingWithin(entries: seq<Entry>, name: string)
    ensures Within(entries, Naming(entries, name))
  {
    var ix := Naming(entries, name);
    forall k | 0 <= k < |ix| ensures ix[k] < |entries| { assert ix[k] in ix; }
  }

  /** The entries of the list. */
  predicate IsRef(entries: seq<Entry>, r: CatalogRef) {
    NamingWithin(entries, r.event);
    var ix := Naming(entries, r.event);
    ix != [] && if Uniform(entries, ix) then UniformRef(entries, ix, r) else MixedRef(entries, ix, r)
  }

  lemma UpperTwice(s: string)
    ensures UpperString(UpperString(s)) == UpperString(s)
  {
  }

  /** The type filter and the reading of single rows agree: an event with a source has a type exactly when the list has an
      entry for the event with that type, for all sources or for this one. */
  lemma FilterAgrees(entries: seq<Entry>, event: string, src: nat, ty: Type)
    ensures (ForCatalog(entries, event, src).Some? && ForCatalog(entries, event, src).value.0 == ty)
       <==> exists r :: IsRef(entries, r) && r.event == UpperString(event) && (r.src.None? || r.src == Some(src)) && r.ty == ty
  {
    var name := UpperString(event);
    var ix := Naming(entries, name);
    NamingWithin(entries, name);
    if ix != [] {
      if Uniform(entries, ix) {
        UniformPart(entries, ix, BySource(entries, ix, src));
        assert IsRef(entries, CatalogRef(name, None, TypeOf(entries[ix[0]]), SingleCode(entries, ix)));
      } else {
        MixedAgrees(entries, event, name, ix, src, ty);
      }
    }
  }

  lemma MixedAgrees(entries: seq<Entry>, event: string, name: string, ix: seq<nat>, src: nat, ty: Type)
    requires name == UpperString(event) && ix == Naming(entries, name) && ix != [] && Within(entries, ix) && !Uniform(entries, ix)
    ensures (ForCatalog(entries, event, src).Some? && ForCatalog(entries, event, src).value.0 == ty)
       <==> exists r :: IsRef(entries, r) && r.event == name && (r.src.None? || r.src == Some(src)) && r.ty == ty
  {
    UpperTwice(event);
    assert ForCatalog(entries, name, src) == ForCatalog(entries, event, src);
    if ForCatalog(entries, event, src).Some? {
      var (t, i) := ForCatalog(entries, event, src).value;
      assert MixedRef(entries, ix, CatalogRef(name, Some(src), t, CodeAt(entries, i)));
      assert IsRef(entries, CatalogRef(name, Some(src), t, CodeAt(entries, i)));
    }
  }

  lemma UniformPart(entries: seq<Entry>, ix: seq<nat>, own: seq<nat>)
    requires ix != [] && Within(entries, ix) && Within(entries, own) && Uniform(entries, ix) && forall i | i in own :: i in ix
    ensures Uniform(entries, own) && (own != [] ==> TypeOf(entries[own[0]]) == TypeOf(entries[ix[0]]))
  {
    forall k | 0 <= k < |own| ensures TypeOf(entries[own[k]]) == TypeOf(entries[ix[0]]) {
      assert own[k] in ix;
      var j :| 0 <= j < |ix| && ix[j] == own[k];
    }
  }

  // ---------------------------------------------------------------- listing them in order

  lemma {:induction false} LeastName(names: set<string>)
    requires names != {}
    ensures exists m :: m in names && forall n | n in names :: Leq(m, n)
  {
    var x :| x in names;
    if names - {x} == {} {
      assert names == {x};
      LeqTotal(x, x);
    } else {
      LeastName(names - {x});
      var m :| m in names - {x} && forall n | n in names - {x} :: Leq(m, n);
      LeastOfTwo(names, x, m);
    }
  }

  lemma LeastOfTwo(names: set<string>, x: string, m: string)
    requires x in names && m in names && forall n | n in names - {x} :: Leq(m, n)
    ensures exists l :: l in names && forall n | n in names :: Leq(l, n)
  {
    LeqTotal(x, m);
    LeqTotal(x, x);
    if Leq(m, x) {
      assert forall n | n in names :: Leq(m, n);
    } else {
      forall n | n in names ensures Leq(x, n) {
        if n != x { LeqTransitive(x, m, n); }
      }
    }
  }

  /** Events ascending, and sources within an event. */
  predicate RefBefore(a: CatalogRef, b: CatalogRef) {
    if a.event == b.event then a.src.Some? && b.src.Some? && a.src.value < b.src.value else Leq(a.event, b.event)
  }

  predicate InOrder(refs: seq<CatalogRef>) {
    forall i, j | 0 <= i < j < |refs| :: RefBefore(refs[i], refs[j])
  }

  /** All references of events before every name in `todo`. */
  ghost predicate ListedBefore(entries: seq<Entry>, out: seq<CatalogRef>, todo: set<string>) {
    && InOrder(out)
    && (forall r :: r in out <==> IsRef(entries, r) && r.event !in todo)
    && (forall r, n | r in out && n in todo :: Leq(r.event, n))
  }

  lemma ListNext(entries: seq<Entry>, out: seq<CatalogRef>, todo: set<string>, name: string, more: seq<CatalogRef>)
    requires ListedBefore(entries, out, todo) && name in todo && forall n | n in todo :: Leq(name, n)
    requires InOrder(more) && forall r :: r in more <==> IsRef(entries, r) && r.event == name
    ensures ListedBefore(entries, out + more, todo - {name})
  {
    forall i, j | 0 <= i < j < |out + more| ensures RefBefore((out + more)[i], (out + more)[j]) {
      if i < |out| <= j {
        assert out[i] in out && more[j - |out|] in more;
      }
    }
  }

  /** `catalog_refs`: all references, event by event in the order of the names. */
  method CatalogRefs(x: Index, ghost entries: seq<Entry>) returns (out: seq<CatalogRef>)
    requires Indexed(x, entries)
    ensures forall r :: r in out <==> IsRef(entries, r)
    ensures InOrder(out)
  {
    out := [];
    var todo := x.byCatalog.Keys;
    NothingListed(x.byCatalog, entries);
    while todo != {}
      invariant todo <= x.byCatalog.Keys && ListedBefore(entries, out, todo)
      decreases todo
    {
      LeastName(todo);
      var name :| name in todo && forall n | n in todo :: Leq(name, n);
      assert NameIndexed(x.byCatalog, entries, name);
      var more := RefsOf(x.entries, name, x.byCatalog[name]);
      ListNext(entries, out, todo, name, more);
      out := out + more;
      todo := todo - {name};
    }
  }

  lemma NothingListed(byCatalog: map<string, seq<nat>>, entries: seq<Entry>)
    requires NamesIndexed(byCatalog, entries)
    ensures ListedBefore(entries, [], byCatalog.Keys)
  {
    forall r | IsRef(entries, r) ensures r.event in byCatalog { assert NameIndexed(byCatalog, entries, r.event); }
  }

  method RefsOf(entries: seq<Entry>, name: string, ix: seq<nat>) returns (out: seq<CatalogRef>)
    requires ix == Naming(entries, name) && ix != []
    ensures InOrder(out) && forall r :: r in out <==> IsRef(entries, r) && r.event == name
  {
    NamingWithin(entries, name);
    if Uniform(entries, ix) {
      out := [CatalogRef(name, None, TypeOf(entries[ix[0]]), SingleCode(entries, ix))];
    } else {
      out := MixedRefs(entries, name, ix);
    }
  }

  lemma {:induction false} LeastSource(srcs: set<nat>)
    requires srcs != {}
    ensures exists m :: m in srcs && forall n | n in srcs :: m <= n
  {
    var x :| x in srcs;
    if srcs - {x} == {} {
      assert srcs == {x};
    } else {
      LeastSource(srcs - {x});
      var m :| m in srcs - {x} && forall n | n in srcs - {x} :: m <= n;
      var l := if m <= x then m else x;
      forall n | n in srcs ensures l <= n {
        if n != x { assert n in srcs - {x}; }
      }
      assert l in srcs;
    }
  }

  /** The references that `p` picks and whose source lies below all of `srcs`, in order. */
  ghost predicate Below(p: CatalogRef -> bool, out: seq<CatalogRef>, srcs: set<nat>) {
    && InOrder(out)
    && (forall r :: r in out <==> p(r) && r.src.Some? && r.src.value !in srcs)
    && (forall r, s | r in out && s in srcs :: r.src.value < s)
  }

  predicate MixedOf(entries: seq<Entry>, name: string, ix: seq<nat>, r: CatalogRef)
    requires Within(entries, ix)
  {
    r.event == name && MixedRef(entries, ix, r)
  }

  method MixedRefs(entries: seq<Entry>, name: string, ix: seq<nat>) returns (out: seq<CatalogRef>)
    requires Within(entries, ix)
    ensures InOrder(out) && forall r :: r in out <==> MixedRef(entries, ix, r) && r.event == name
  {
    out := [];
    var srcs := set k | 0 <= k < |ix| && entries[ix[k]].src.Some? :: entries[ix[k]].src.value;
    SourcesOf(entries, ix, srcs);
    ghost var p := (r: CatalogRef) => MixedOf(entries, name, ix, r);
    while srcs != {}
      invariant forall s | s in srcs :: BySource(entries, ix, s) != []
      invariant Below(p, out, srcs)
      decreases srcs
    {
      LeastSource(srcs);
      var s :| s in srcs && forall n | n in srcs :: s <= n;
      var found := ForCatalog(entries, name, s);
      if found.Some? {
        var one := CatalogRef(name, Some(s), found.value.0, CodeAt(entries, found.value.1));
        OneRef(entries, name, ix, s, one);
        BelowOne(p, out, srcs, s, one);
        out := out + [one];
      } else {
        BelowNone(p, out, srcs, s);
      }
      srcs := srcs - {s};
    }
  }

  lemma OneRef(entries: seq<Entry>, name: string, ix: seq<nat>, s: nat, r: CatalogRef)
    requires Within(entries, ix) && BySource(entries, ix, s) != [] && ForCatalog(entries, name, s).Some?
    requires r == CatalogRef(name, Some(s), ForCatalog(entries, name, s).value.0, CodeAt(entries, ForCatalog(entries, name, s).value.1))
    ensures forall q: CatalogRef | q.src == Some(s) :: MixedOf(entries, name, ix, q) <==> q == r
  {
  }

  lemma AddLast(out: seq<CatalogRef>, one: CatalogRef)
    requires InOrder(out) && forall r | r in out :: RefBefore(r, one)
    ensures InOrder(out + [one])
  {
    forall i, j | 0 <= i < j < |out + [one]| ensures RefBefore((out + [one])[i], (out + [one])[j]) {
      if j == |out| { assert out[i] in out; }
    }
  }

  /** The one reference of the least source comes last. */
  lemma BelowOne(p: CatalogRef -> bool, out: seq<CatalogRef>, srcs: set<nat>, s: nat, one: CatalogRef)
    requires Below(p, out, srcs) && s in srcs && forall n | n in srcs :: s <= n
    requires one.src == Some(s) && forall q: CatalogRef | q.src == Some(s) :: p(q) <==> q == one
    requires forall q: CatalogRef | p(q) :: q.event == one.event
    ensures Below(p, out + [one], srcs - {s})
  {
    AddLast(out, one);
    forall r ensures r in out + [one] <==> p(r) && r.src.Some? && r.src.value !in srcs - {s} {
      assert r in out + [one] <==> r in out || r == one;
    }
  }

  lemma BelowNone(p: CatalogRef -> bool, out: seq<CatalogRef>, srcs: set<nat>, s: nat)
    requires Below(p, out, srcs) && s in srcs && forall q: CatalogRef | p(q) :: q.src != Some(s)
    ensures Below(p, out, srcs - {s})
  {
  }

  lemma SourcesOf(entries: seq<Entry>, ix: seq<nat>, srcs: set<nat>)
    requires Within(entries, ix) && srcs == set k | 0 <= k < |ix| && entries[ix[k]].src.Some? :: entries[ix[k]].src.value
    ensures forall s :: s in srcs <==> BySource(entries, ix, s) != []
  {
    forall s ensures s in srcs <==> BySource(entries, ix, s) != [] {
      var own := BySource(entries, ix, s);
      if own != [] { assert own[0] in ix; }
      if s in srcs {
        var k :| 0 <= k < |ix| && entries[ix[k]].src == Some(s);
        assert ix[k] in own;
      }
    }
  }

  // ---------------------------------------------------------------- value formats

  predicate PrefixKey(key: string, code: string) {
    |key| >= 1 && key[|key| - 1] == '*' && |key| - 1 <= |code| && code[..|key| - 1] == key[..|key| - 1]
  }

  /** `key` is the one the code is formatted by: itself, else the longest prefix key. */
  predicate Governs<H>(hints: map<string, H>, code: string, key: string) {
    key in hints && if code in hints then key == code
    else PrefixKey(key, code) && forall k | k in hints && PrefixKey(k, code) :: |k| <= |key|
  }

  /** `Formats::get`: whatever the order of the map, the hint of the one key that governs the code. */
  method GetFormat<H>(hints: map<string, H>, text: string) returns (h: Option<H>)
    ensures h.Some? ==> exists key :: Governs(hints, UpperString(text), key) && hints[key] == h.value
    ensures h.None? ==> forall key :: !Governs(hints, UpperString(text), key)
  {
    var code := UpperString(text);
    if code in hints {
      assert Governs(hints, code, code);
      return Some(hints[code]);
    }
    var todo, best := hints.Keys, "";
    while todo != {}
      invariant todo <= hints.Keys
      invariant best == "" ==> forall k | k in hints && k !in todo :: !PrefixKey(k, code)
      invariant best != "" ==> best in hints && PrefixKey(best, code) && forall k | k in hints && k !in todo && PrefixKey(k, code) :: |k| <= |best|
      decreases todo
    {
      var k :| k in todo;
      if PrefixKey(k, code) && |k| >= |best| { best := k; }
      todo := todo - {k};
    }
    if best == "" { return None; }
    assert Governs(hints, code, best);
    return Some(hints[best]);
  }

  /** At most one key governs a code, so the format does not depend on the order of the map. */
  lemma OneFormat<H>(hints: map<string, H>, code: string, j: string, k: string)
    requires Governs(hints, code, j) && Governs(hints, code, k)
    ensures j == k
  {
    if code !in hints {
      assert j == code[..|j| - 1] + "*" && k == code[..|k| - 1] + "*";
    }
  }

  // ---------------------------------------------------------------- the readings, said in characters and numbers

  /** The categories 6, 18 and 19, the sources 1 and 2 of alarm rows, and the transition in the ten thousands of the code. */
  lemma EncodeExactly(num: nat)
    ensures forall t :: Encode(Row(Alarm, t, num)).0 == 6 && Encode(Row(Alarm, t, num)).1 == Some(1)
    ensures forall t :: Encode(Row(Warn, t, num)).0 == 6 && Encode(Row(Warn, t, num)).1 == Some(2)
    ensures forall t :: Encode(Row(Operator, t, num)).0 == 18 && Encode(Row(Operator, t, num)).1 == None
    ensures forall t :: Encode(Row(Info, t, num)).0 == 19 && Encode(Row(Info, t, num)).1 == None
    ensures forall l :: Encode(Row(l, Raise, num)).2 == 10000 + num && Encode(Row(l, Clear, num)).2 == 20000 + num
    ensures forall l :: Encode(Row(l, Momentary, num)).2 == 30000 + num && Encode(Row(l, Summary, num)).2 == 40000 + num
  {
  }

  /** The letters of a level, upper case or lower case, are those two and no others. */
  lemma LettersExactly(c: char)
    ensures FromLetter(c) == Some(Alarm) <==> c in "Ff"
    ensures FromLetter(c) == Some(Warn) <==> c in "Ww"
    ensures FromLetter(c) == Some(Operator) <==> c in "Oo"
    ensures FromLetter(c) == Some(Info) <==> c in "Ii"
    ensures Label(Alarm, 1) == "F0001" && Label(Warn, 20) == "W0020" && Label(Operator, 300) == "O0300" && Label(Info, 4000) == "I4000"
  {
    assert Decimal(1) == "1" && Decimal(20) == "20";
    assert Decimal(300) == Decimal(30) + "0" && Decimal(30) == "30";
    assert Decimal(4000) == Decimal(400) + "0" && Decimal(400) == Decimal(40) + "0" && Decimal(40) == "40";
  }

  /** Upper case changes the letters a to z and nothing else. */
  lemma UpperExactly(c: char)
    ensures forall i | 0 <= i < 26 :: Upper("abcdefghijklmnopqrstuvwxyz"[i]) == "ABCDEFGHIJKLMNOPQRSTUVWXYZ"[i]
    ensures c !in "abcdefghijklmnopqrstuvwxyz" ==> Upper(c) == c
  {
    var lower := "abcdefghijklmnopqrstuvwxyz";
    forall i | 0 <= i < 26 ensures lower[i] as int == 97 + i && "ABCDEFGHIJKLMNOPQRSTUVWXYZ"[i] as int == 65 + i {}
    if 'a' <= c <= 'z' { assert lower[c as int - 97] == c; }
  }

  /** The level is given, or read off the letter that the code begins with. */
  predicate Says(e: Entry, l: Level, letters: string) {
    e.given == Some(l) || (e.given.None? && e.code != "" && e.code[0] in letters)
  }

  /** The type is the level, and information when neither says otherwise; information of a task is one of its own. */
  lemma TypeExactly(e: Entry)
    ensures TypeOf(e) == TyAlarm <==> Says(e, Alarm, "Ff")
    ensures TypeOf(e) == TyWarn <==> Says(e, Warn, "Ww")
    ensures TypeOf(e) == TyOperator <==> Says(e, Operator, "Oo")
    ensures TypeOf(e) == TyTask <==> e.task && !Says(e, Alarm, "Ff") && !Says(e, Warn, "Ww") && !Says(e, Operator, "Oo")
    ensures TypeOf(e) == TyInfo <==> !e.task && !Says(e, Alarm, "Ff") && !Says(e, Warn, "Ww") && !Says(e, Operator, "Oo")
  {
    if e.code != "" { LettersExactly(e.code[0]); }
  }

  /** Entry `i` names the event, whatever the case. */
  predicate SpeaksOf(entries: seq<Entry>, event: string, i: nat) {
    i < |entries| && entries[i].catalog.Some? && UpperString(entries[i].catalog.value) == UpperString(event)
  }

  predicate SpeaksOfSource(entries: seq<Entry>, event: string, src: nat, i: nat) {
    SpeaksOf(entries, event, i) && entries[i].src == Some(src)
  }

  /** It counts for the source: it is an entry of the source, or there is none. */
  ghost predicate Counts(entries: seq<Entry>, event: string, src: nat, i: nat) {
    SpeaksOf(entries, event, i) && (entries[i].src == Some(src) || forall j: nat :: !SpeaksOfSource(entries, event, src, j))
  }

  /** Entry `i` is the only one that counts. */
  ghost predicate CountsAlone(entries: seq<Entry>, event: string, src: nat, i: nat) {
    Counts(entries, event, src, i) && forall j: nat | Counts(entries, event, src, j) :: j == i
  }

  lemma OnlyMember(ix: seq<nat>, i: nat)
    requires i in ix && (forall j, k | 0 <= j < k < |ix| :: ix[j] < ix[k])
    ensures |ix| == 1 <==> forall j | j in ix :: j == i
  {
    if |ix| > 1 { assert ix[0] in ix && ix[1] in ix; }
  }

  lemma {:induction false} BySourceAscends(entries: seq<Entry>, ix: seq<nat>, src: nat)
    requires Within(entries, ix) && forall j, k | 0 <= j < k < |ix| :: ix[j] < ix[k]
    ensures forall j, k | 0 <= j < k < |BySource(entries, ix, src)| :: BySource(entries, ix, src)[j] < BySource(entries, ix, src)[k]
  {
    if ix != [] {
      BySourceAscends(entries, ix[1..], src);
      var more := BySource(entries, ix[1..], src);
      forall k | 0 <= k < |more| ensures ix[0] < more[k] {
        assert more[k] in ix[1..];
      }
    }
  }

  function SettledBy(entries: seq<Entry>, pick: seq<nat>): Option<(Type, Option<nat>)>
    requires Within(entries, pick) && pick != []
  {
    if Uniform(entries, pick) then Some((TypeOf(entries[pick[0]]), if |pick| == 1 then Some(pick[0]) else None)) else None
  }

  /** The positions that `for_catalog` settles on. */
  lemma PickedCount(entries: seq<Entry>, event: string, src: nat) returns (pick: seq<nat>)
    ensures Within(entries, pick) && (forall i: nat :: i in pick <==> Counts(entries, event, src, i))
    ensures forall j, k | 0 <= j < k < |pick| :: pick[j] < pick[k]
    ensures pick == [] <==> ForCatalog(entries, event, src).None? && !(exists i: nat :: Counts(entries, event, src, i))
    ensures pick != [] ==>
      ForCatalog(entries, event, src) == SettledBy(entries, pick)
  {
    var ix := Naming(entries, UpperString(event));
    NamingWithin(entries, UpperString(event));
    var own := BySource(entries, ix, src);
    BySourceAscends(entries, ix, src);
    pick := if own == [] then ix else own;
    forall i: nat ensures i in own <==> SpeaksOfSource(entries, event, src, i) {}
    if own != [] { assert own[0] in own && SpeaksOfSource(entries, event, src, own[0]); }
    if pick != [] { assert pick[0] in pick && Counts(entries, event, src, pick[0]); }
  }

  /** The type of an event from a source: the one that all entries agree on that count for the source, with the entry when it is
      the only one; nothing when none counts or they disagree. */
  lemma ForCatalogExactly(entries: seq<Entry>, event: string, src: nat, ty: Type, one: Option<nat>)
    ensures ForCatalog(entries, event, src) == Some((ty, one)) <==>
      && (exists i: nat :: Counts(entries, event, src, i))
      && (forall i: nat | Counts(entries, event, src, i) :: TypeOf(entries[i]) == ty)
      && (one.Some? ==> CountsAlone(entries, event, src, one.value))
      && (one.None? ==> forall i: nat :: !CountsAlone(entries, event, src, i))
  {
    var pick := PickedCount(entries, event, src);
    if pick != [] {
      assert pick[0] in pick;
      OnlyMember(pick, pick[0]);
      forall k | 0 <= k < |pick| ensures Counts(entries, event, src, pick[k]) { assert pick[k] in pick; }
      if forall i: nat | Counts(entries, event, src, i) :: TypeOf(entries[i]) == ty { assert Uniform(entries, pick); }
      if Uniform(entries, pick) {
        forall i: nat | Counts(entries, event, src, i) ensures TypeOf(entries[i]) == TypeOf(entries[pick[0]]) {
          var k :| 0 <= k < |pick| && pick[k] == i;
        }
      }
      if |pick| == 1 { assert CountsAlone(entries, event, src, pick[0]); }
    }
  }

  /** A prefix key is a beginning of the code and a star. */
  lemma PrefixKeyExactly(key: string, code: string)
    ensures PrefixKey(key, code) <==> exists p :: key == p + "*" && p <= code
  {
    if PrefixKey(key, code) { assert key == key[..|key| - 1] + "*"; }
  }

  // ---------------------------------------------------------------- the list, said in entries

  /** Entry `i` is the only one that names the event. */
  ghost predicate SpeaksAlone(entries: seq<Entry>, event: string, i: nat) {
    SpeaksOf(entries, event, i) && forall j: nat | SpeaksOf(entries, event, j) :: j == i
  }

  /** All entries that name the event have this type. */
  ghost predicate AllOfType(entries: seq<Entry>, event: string, ty: Type) {
    forall i: nat | SpeaksOf(entries, event, i) :: TypeOf(entries[i]) == ty
  }

  /** A reference for all sources: the type of all entries that name the event, with the code when there is only one. */
  ghost predicate ForAll(entries: seq<Entry>, r: CatalogRef) {
    && r.src.None? && AllOfType(entries, r.event, r.ty)
    && (forall i: nat | SpeaksAlone(entries, r.event, i) :: r.code == Some(entries[i].code))
    && (r.code.Some? ==> exists i: nat :: SpeaksAlone(entries, r.event, i))
  }

  /** A reference for one source that has an entry: what `for_catalog` settles on for it. */
  ghost predicate ForOne(entries: seq<Entry>, r: CatalogRef) {
    && r.src.Some? && (exists i: nat :: SpeaksOfSource(entries, r.event, r.src.value, i))
    && var found := ForCatalog(entries, r.event, r.src.value);
       found.Some? && r.ty == found.value.0
       && r.code == match found.value.1 case Some(i) => (if i < |entries| then Some(entries[i].code) else None) case None => None
  }

  lemma NamedBy(entries: seq<Entry>, event: string) returns (ix: seq<nat>)
    ensures ix == Naming(entries, UpperString(event)) && Within(entries, ix)
    ensures forall i: nat :: i in ix <==> SpeaksOf(entries, event, i)
    ensures forall j, k | 0 <= j < k < |ix| :: ix[j] < ix[k]
  {
    ix := Naming(entries, UpperString(event));
    NamingWithin(entries, UpperString(event));
  }

  lemma UniformIsAllOfType(entries: seq<Entry>, event: string, ix: seq<nat>)
    requires Within(entries, ix) && ix != [] && forall i: nat :: i in ix <==> SpeaksOf(entries, event, i)
    ensures Uniform(entries, ix) <==> AllOfType(entries, event, TypeOf(entries[ix[0]]))
    ensures forall ty | AllOfType(entries, event, ty) :: ty == TypeOf(entries[ix[0]])
  {
    assert ix[0] in ix;
    if Uniform(entries, ix) {
      forall i: nat | SpeaksOf(entries, event, i) ensures TypeOf(entries[i]) == TypeOf(entries[ix[0]]) {
        var k :| 0 <= k < |ix| && ix[k] == i;
      }
    }
    if AllOfType(entries, event, TypeOf(entries[ix[0]])) {
      forall k | 0 <= k < |ix| ensures TypeOf(entries[ix[k]]) == TypeOf(entries[ix[0]]) { assert ix[k] in ix; }
    }
  }

  lemma SingleIsAlone(entries: seq<Entry>, event: string, ix: seq<nat>, code: Option<string>)
    requires Within(entries, ix) && ix != [] && forall i: nat :: i in ix <==> SpeaksOf(entries, event, i)
    requires forall j, k | 0 <= j < k < |ix| :: ix[j] < ix[k]
    ensures code == SingleCode(entries, ix) <==>
      && (forall i: nat | SpeaksAlone(entries, event, i) :: code == Some(entries[i].code))
      && (code.Some? ==> exists i: nat :: SpeaksAlone(entries, event, i))
  {
    assert ix[0] in ix;
    OnlyMember(ix, ix[0]);
    if |ix| == 1 { assert SpeaksAlone(entries, event, ix[0]); }
  }

  lemma SourceHasEntry(entries: seq<Entry>, event: string, ix: seq<nat>, src: nat)
    requires Within(entries, ix) && forall i: nat :: i in ix <==> SpeaksOf(entries, event, i)
    ensures BySource(entries, ix, src) != [] <==> exists i: nat :: SpeaksOfSource(entries, event, src, i)
  {
    var own := BySource(entries, ix, src);
    if own != [] { assert own[0] in own && SpeaksOfSource(entries, event, src, own[0]); }
    if i: nat :| SpeaksOfSource(entries, event, src, i) { assert i in own; }
  }

  predicate IsNaming(entries: seq<Entry>, event: string, ix: seq<nat>) {
    ix == Naming(entries, event) && Within(entries, ix) && ix != []
  }

  lemma ForAllIs(entries: seq<Entry>, r: CatalogRef, ix: seq<nat>)
    requires IsNaming(entries, r.event, ix) && UpperString(r.event) == r.event && Uniform(entries, ix)
    ensures UniformRef(entries, ix, r) <==> ForAll(entries, r)
  {
    assert ix[0] in ix;
    UniformIsAllOfType(entries, r.event, ix);
    SingleIsAlone(entries, r.event, ix, r.code);
  }

  lemma ForOneIs(entries: seq<Entry>, r: CatalogRef, ix: seq<nat>)
    requires IsNaming(entries, r.event, ix) && UpperString(r.event) == r.event
    ensures MixedRef(entries, ix, r) <==> ForOne(entries, r)
  {
    if r.src.Some? { SourceHasEntry(entries, r.event, ix, r.src.value); }
  }

  lemma OneTypeIs(entries: seq<Entry>, event: string, ix: seq<nat>)
    requires IsNaming(entries, event, ix) && UpperString(event) == event
    ensures Uniform(entries, ix) <==> exists ty :: AllOfType(entries, event, ty)
  {
    UniformIsAllOfType(entries, event, ix);
  }

  lemma NamedOrNot(entries: seq<Entry>, event: string, ix: seq<nat>)
    requires ix == Naming(entries, event) && UpperString(event) == event
    ensures ix != [] <==> exists i: nat :: SpeaksOf(entries, event, i)
  {
    if ix != [] { assert ix[0] in ix && SpeaksOf(entries, event, ix[0]); }
  }

  /** The references of the list: for an event in upper case that some entry names, one for all sources when its entries are of one
      type, else one for each source that settles the type. */
  lemma RefExactly(entries: seq<Entry>, r: CatalogRef)
    requires UpperString(r.event) == r.event
    ensures IsRef(entries, r) <==>
      && (exists i: nat :: SpeaksOf(entries, r.event, i))
      && if exists ty :: AllOfType(entries, r.event, ty) then ForAll(entries, r) else ForOne(entries, r)
  {
    var ix := NamedBy(entries, r.event);
    NamedOrNot(entries, r.event, ix);
    if ix != [] {
      OneTypeIs(entries, r.event, ix);
      if Uniform(entries, ix) { ForAllIs(entries, r, ix); } else { ForOneIs(entries, r, ix); }
    }
  }

  /** Every event of the list is in upper case. */
  lemma RefsAreUpper(entries: seq<Entry>, r: CatalogRef)
    requires IsRef(entries, r)
    ensures UpperString(r.event) == r.event
  {
    var ix := Naming(entries, r.event);
    assert ix[0] in ix;
    UpperTwice(entries[ix[0]].catalog.value);
  }
}
