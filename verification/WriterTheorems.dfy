/** The order of a task submission, and what the server holds when the header goes out: `crates/opcua-cmd/src/writer.rs`. */
module WriterTheorems {
  import opened Wrappers
  import opened Text
  import opened Path
  import opened Values
  import opened Structs
  import opened Pack
  import opened PackMeaning
  import opened NodeLookup
  import opened Writer

  // ---------------------------------------------------------------- the header comes last, and its sequence number last of all

  predicate IsHeaderPath(key: string) {
    key in HEADER_PATHS
  }

  /** The write puts this value into the node of this path. */
  predicate Puts(m: Machine, nodes: Nodes, w: Write, key: string, v: PlcValue) {
    w.key == key && w.payload.Scalar? && Coerce(m, v, KindOf(nodes.kinds, key)) == Some(w.payload.v)
  }

  lemma {:induction false} PlanPuts(m: Machine, nodes: Nodes, items: seq<Item>, k: nat)
    requires Plan(m, nodes, items).Ok? && k < |items|
    ensures |Plan(m, nodes, items).value| == |items| && Puts(m, nodes, Plan(m, nodes, items).value[k], items[k].key, items[k].value)
  {
    PlanKeys(m, nodes, items);
    var n := |items| - 1;
    if k < n { PlanPuts(m, nodes, items[..n], k); }
  }

  /** The write is number `k` of the header. */
  predicate PutsField(m: Machine, nodes: Nodes, h: Header, w: Write, k: nat) {
    || (k == 0 && Puts(m, nodes, w, "Header.Protocol", Int(U8, h.protocol)))
    || (k == 1 && Puts(m, nodes, w, "Header.CMD_ID", Int(U8, h.cmdId)))
    || (k == 2 && Puts(m, nodes, w, "Header.CMD", Int(U8, h.cmd)))
    || (k == 3 && Puts(m, nodes, w, "Header.SRC", Int(U16, h.src)))
    || (k == 4 && Puts(m, nodes, w, "Header.DST", Int(U16, h.dst)))
    || (k == 5 && Puts(m, nodes, w, "Header.SEQ", Int(U16, h.seqNo)))
  }

  lemma ItemIsField(h: Header, k: nat)
    requires k < 6
    ensures forall m, nodes, w | Puts(m, nodes, w, HeaderItems(h)[k].key, HeaderItems(h)[k].value) :: PutsField(m, nodes, h, w, k)
  {
  }

  lemma PlannedFields(m: Machine, nodes: Nodes, h: Header)
    requires Plan(m, nodes, HeaderItems(h)).Ok?
    ensures |Plan(m, nodes, HeaderItems(h)).value| == 6
    ensures forall k | 0 <= k < 6 :: PutsField(m, nodes, h, Plan(m, nodes, HeaderItems(h)).value[k], k)
  {
    PlanKeys(m, nodes, HeaderItems(h));
    forall k | 0 <= k < 6 ensures PutsField(m, nodes, h, Plan(m, nodes, HeaderItems(h)).value[k], k) {
      PlanPuts(m, nodes, HeaderItems(h), k);
      ItemIsField(h, k);
    }
  }

  /** The header phase writes each field of the header to the node of that field, in this order, and all six when it is well. */
  lemma HeaderFields(m: Machine, nodes: Nodes, maxWrite: nat, h: Header, a: Attempt, r: Result<Header, OpcError>)
    requires HeaderDone(m, nodes, maxWrite, h, a, r)
    ensures |Sent(a.qs)| <= 6 && forall k | 0 <= k < |Sent(a.qs)| :: PutsField(m, nodes, h, Sent(a.qs)[k], k)
    ensures r.Ok? ==> r.value == h && |Sent(a.qs)| == 6 && AllAcked(a.qs)
    ensures a.qs != [] ==> AllAcked(a.qs[..|a.qs| - 1])
  {
    if a.online && Plan(m, nodes, HeaderItems(h)).Ok? {
      var ws := Plan(m, nodes, HeaderItems(h)).value;
      PlannedFields(m, nodes, h);
      assert StructWrites([]) + ws == ws;
      forall k | 0 <= k < |Sent(a.qs)| ensures Sent(a.qs)[k] == ws[k] {}
    }
  }

  /** What the server holds after the header: each field under its name. */
  lemma HeaderIsStored(m: Machine, nodes: Nodes, maxWrite: nat, structs: map<string, Verified>, h: Header, a: Attempt)
    requires HeaderDone(m, nodes, maxWrite, h, a, Ok(h))
    ensures var store := Effect(structs, Sent(a.qs));
      && store.Keys == {"Header.Protocol", "Header.CMD_ID", "Header.CMD", "Header.SRC", "Header.DST", "Header.SEQ"}
      && Coerce(m, Int(U8, h.protocol), KindOf(nodes.kinds, "Header.Protocol")) == Some(store["Header.Protocol"])
      && Coerce(m, Int(U8, h.cmdId), KindOf(nodes.kinds, "Header.CMD_ID")) == Some(store["Header.CMD_ID"])
      && Coerce(m, Int(U8, h.cmd), KindOf(nodes.kinds, "Header.CMD")) == Some(store["Header.CMD"])
      && Coerce(m, Int(U16, h.src), KindOf(nodes.kinds, "Header.SRC")) == Some(store["Header.SRC"])
      && Coerce(m, Int(U16, h.dst), KindOf(nodes.kinds, "Header.DST")) == Some(store["Header.DST"])
      && Coerce(m, Int(U16, h.seqNo), KindOf(nodes.kinds, "Header.SEQ")) == Some(store["Header.SEQ"])
  {
    HeaderFields(m, nodes, maxWrite, h, a, Ok(h));
    var ws := Sent(a.qs);
    SixWrites(structs, ws, ws[0], ws[1], ws[2], ws[3], ws[4], ws[5]);
    SixFields(ws[0].payload.v, ws[1].payload.v, ws[2].payload.v, ws[3].payload.v, ws[4].payload.v, ws[5].payload.v);
  }

  lemma SixFields(a: Variant, b: Variant, c: Variant, d: Variant, e: Variant, f: Variant)
    ensures var store: Store := map[]["Header.Protocol" := a]["Header.CMD_ID" := b]["Header.CMD" := c]["Header.SRC" := d]["Header.DST" := e]["Header.SEQ" := f];
      && store.Keys == {"Header.Protocol", "Header.CMD_ID", "Header.CMD", "Header.SRC", "Header.DST", "Header.SEQ"}
      && store["Header.Protocol"] == a && store["Header.CMD_ID"] == b && store["Header.CMD"] == c
      && store["Header.SRC"] == d && store["Header.DST"] == e && store["Header.SEQ"] == f
  {
    FieldNamesDiffer();
  }

  lemma SixWrites(structs: map<string, Verified>, ws: seq<Write>, a: Write, b: Write, c: Write, d: Write, e: Write, f: Write)
    requires ws == [a, b, c, d, e, f]
    requires a.payload.Scalar? && b.payload.Scalar? && c.payload.Scalar? && d.payload.Scalar? && e.payload.Scalar? && f.payload.Scalar?
    ensures Effect(structs, ws) == map[][a.key := a.payload.v][b.key := b.payload.v][c.key := c.payload.v][d.key := d.payload.v][e.key := e.payload.v][f.key := f.payload.v]
  {
    EffectSnoc(structs, [], a);
    EffectSnoc(structs, [a], b);
    EffectSnoc(structs, [a, b], c);
    EffectSnoc(structs, [a, b, c], d);
    EffectSnoc(structs, [a, b, c, d], e);
    EffectSnoc(structs, [a, b, c, d, e], f);
    assert [] + [a] == [a] && [a] + [b] == [a, b] && [a, b] + [c] == [a, b, c] && [a, b, c] + [d] == [a, b, c, d];
    assert [a, b, c, d] + [e] == [a, b, c, d, e] && [a, b, c, d, e] + [f] == ws;
  }

  lemma FieldNamesDiffer()
    ensures "Header.Protocol" != "Header.CMD_ID" && "Header.Protocol" != "Header.CMD" && "Header.CMD_ID" != "Header.CMD"
    ensures forall x | x in ["Header.Protocol", "Header.CMD_ID", "Header.CMD"] :: x != "Header.SRC" && x != "Header.DST" && x != "Header.SEQ"
    ensures "Header.SRC" != "Header.DST" && "Header.SRC" != "Header.SEQ" && "Header.DST" != "Header.SEQ"
  {
    assert "Header.Protocol"[7] == 'P' && "Header.CMD_ID"[7] == 'C' && "Header.CMD"[7] == 'C';
    assert "Header.SRC"[7] == 'S' && "Header.DST"[7] == 'D' && "Header.SEQ"[7] == 'S' && "Header.SRC"[8] == 'R' && "Header.SEQ"[8] == 'E';
    assert |"Header.CMD_ID"| != |"Header.CMD"|;
  }

  /** The outcome of a header is uncertain exactly when its last request was not answered for every node: then it may have been
      applied. */
  lemma UncertainExactly(m: Machine, nodes: Nodes, maxWrite: nat, h: Header, a: Attempt, r: Result<Header, OpcError>)
    requires HeaderDone(m, nodes, maxWrite, h, a, r)
    ensures r == Err(HeaderUncertain(h)) <==> a.qs != [] && !Answered(a.qs[|a.qs| - 1])
    ensures r.Err? && r.error.HeaderUncertain? ==> r.error.header == h
  {
    PlanErrors(m, nodes, HeaderItems(h));
  }

  /** The sequence number is the last write of a submission: when it is sent, the whole rest of the header was sent before it,
      and every earlier request was acknowledged. */
  lemma SeqIsLast(m: Machine, nodes: Nodes, maxWrite: nat, h: Header, a: Attempt, r: Result<Header, OpcError>, k: nat)
    requires HeaderDone(m, nodes, maxWrite, h, a, r) && k < |Sent(a.qs)| && Sent(a.qs)[k].key == "Header.SEQ"
    ensures k == 5 && |Sent(a.qs)| == 6 && a.qs != [] && AllAcked(a.qs[..|a.qs| - 1])
    ensures forall i | 0 <= i < 6 :: PutsField(m, nodes, h, Sent(a.qs)[i], i)
  {
    HeaderFields(m, nodes, maxWrite, h, a, r);
    FieldNamesDiffer();
    assert PutsField(m, nodes, h, Sent(a.qs)[k], k);
  }

  lemma ElementStarts(order: seq<string>, name: string, key: string)
    requires key in ArrayElements(order, name)
    ensures StartsWith(key, name)
  {
    var es := Elements(order, name);
    var i :| 0 <= i < |es| && es[i].1 == key;
    assert es[i] in es;
  }

  lemma HeaderStarts(key: string)
    requires IsHeaderPath(key)
    ensures |key| > 0 && key[0] == 'H'
  {
  }

  /** The zeros of the first phase name no header field. */
  lemma ZeroIsNoHeader(nodes: Nodes, key: string)
    requires key in ZeroPaths(nodes)
    ensures !IsHeaderPath(key)
  {
    if IsHeaderPath(key) {
      HeaderStarts(key);
      if key in ArrayElements(nodes.order, "Data") { ElementStarts(nodes.order, "Data", key); }
    }
  }

  /** The zeros of a task: one for every path of the map below `Command` and every element of `Data` that the task does not give. */
  lemma ZeroesExactly(nodes: Nodes, items: seq<Item>, zeros: seq<Item>, key: string)
    requires ZeroesOk(nodes, items, zeros)
    ensures HasKey(zeros, key) <==>
      && key in nodes.order && !HasKey(items, key)
      && ((exists rest :: key == "Command." + rest) || exists d, i :: key == "Data[" + d + "]" && ParseU32(d) == Some(i))
    ensures forall i | 0 <= i < |zeros| :: zeros[i].value == Int(U8, 0)
    ensures forall i, j | 0 <= i < j < |zeros| :: zeros[i].key != zeros[j].key
  {
    PrefixExactly(nodes.order, "Command.", key);
    DataPaths(nodes, key);
    ZeroOrGiven(nodes, items, zeros, key);
  }

  lemma DataPaths(nodes: Nodes, key: string)
    ensures key in ArrayElements(nodes.order, "Data") <==> key in nodes.order && exists d, i :: key == "Data[" + d + "]" && ParseU32(d) == Some(i)
  {
    ElementsInOrder(nodes.order, "Data");
    forall d ensures "Data" + "[" + d + "]" == "Data[" + d + "]" {}
    if ElementIndex(key, "Data").Some? {
      ElementExactly(key, "Data", ElementIndex(key, "Data").value);
      var d :| key == "Data" + "[" + d + "]" && ParseU32(d) == Some(ElementIndex(key, "Data").value);
    }
    if d, i :| key == "Data[" + d + "]" && ParseU32(d) == Some(i) { ElementExactly(key, "Data", i); }
  }

  lemma ZeroOrGiven(nodes: Nodes, items: seq<Item>, zeros: seq<Item>, key: string)
    requires ZeroesOk(nodes, items, zeros)
    ensures HasKey(zeros, key) <==> !HasKey(items, key) && (key in PathsWithPrefix(nodes.order, "Command.") || key in ArrayElements(nodes.order, "Data"))
  {
    var paths := ZeroPaths(nodes);
    if HasKey(zeros, key) {
      var i :| 0 <= i < |zeros| && zeros[i].key == key;
      assert zeros[i].key in paths;
    } else if key in paths {
      var k :| 0 <= k < |paths| && paths[k] == key;
    }
  }

  /** Good is a status whose two highest bits of 32, the severity, are zero, as OPC 10000-4 defines StatusCode. */
  lemma GoodExactly(code: nat)
    requires code < 0x1_0000_0000
    ensures Good(code) <==> code / 0x4000_0000 == 0
    ensures Good(0) && Good(0x3FFF_FFFF) && !Good(0x4000_0000) && !Good(0x8000_0000)
  {
  }

  // ---------------------------------------------------------------- what the server holds after the first phase

  /** The store after acknowledged writes: a scalar into its node, a body taken apart into the leaves of its struct. */
  function Effect(structs: map<string, Verified>, ws: seq<Write>): Store {
    if ws == [] then map[]
    else
      var before, w := Effect(structs, ws[..|ws| - 1]), ws[|ws| - 1];
      match w.payload
      case Scalar(v) => before[w.key := v]
      case Body(_, bytes) => before + BodyStore(structs, w.key, bytes)
  }

  function BodyStore(structs: map<string, Verified>, s: string, bytes: seq<Byte>): Store {
    if s in structs && AllScalar(structs[s].spec.slots) && Unpack(structs[s].spec.slots, bytes).Some?
    then Unpack(structs[s].spec.slots, bytes).value else map[]
  }

  // ---------------------------------------------------------------- no header field before the header

  lemma {:induction false} UnpackedLeaves(slots: seq<Slot>, b: seq<Byte>, key: string)
    requires AllScalar(slots) && Unpack(slots, b).Some? && key in Unpack(slots, b).value
    ensures IsLeaf(slots, key)
  {
    if slots[0].Leaf? && slots[0].path == key {
      assert slots[0].path == key;
    } else {
      UnpackedLeaves(slots[1..], b[SlotWidth(slots[0])..], key);
      var k :| 0 <= k < |slots[1..]| && slots[1..][k].Leaf? && slots[1..][k].path == key;
      assert slots[k + 1].Leaf? && slots[k + 1].path == key;
    }
  }

  lemma StoredIsGiven(structs: map<string, Verified>, w: Write, items: seq<Item>, zeros: seq<Item>, key: string)
    requires NamesGiven(w, items, zeros, structs) && w.payload.Body? && key in BodyStore(structs, w.key, w.payload.bytes)
    ensures HasKey(items, key)
  {
    var slots := structs[w.key].spec.slots;
    UnpackedLeaves(slots, w.payload.bytes, key);
    var k :| 0 <= k < |slots| && slots[k].Leaf? && slots[k].path == key;
  }

  /** Whatever of these writes is applied, it changes members and zeros only. */
  lemma {:induction false} EffectIsGiven(structs: map<string, Verified>, ws: seq<Write>, items: seq<Item>, zeros: seq<Item>, key: string)
    requires KeysOk(ws, items, zeros, structs) && key in Effect(structs, ws)
    ensures HasKey(items, key) || HasKey(zeros, key)
  {
    var front, w := ws[..|ws| - 1], ws[|ws| - 1];
    assert NamesGiven(w, items, zeros, structs);
    if key in Effect(structs, front) {
      EffectIsGiven(structs, front, items, zeros, key);
    } else if w.payload.Body? {
      StoredIsGiven(structs, w, items, zeros, key);
    }
  }

  lemma NotAHeader(nodes: Nodes, items: seq<Item>, zeros: seq<Item>, key: string)
    requires ZeroesOk(nodes, items, zeros) && (HasKey(items, key) || HasKey(zeros, key))
    requires forall i | 0 <= i < |items| :: !IsHeaderPath(items[i].key)
    ensures !IsHeaderPath(key)
  {
    if HasKey(zeros, key) {
      var i :| 0 <= i < |zeros| && zeros[i].key == key;
      ZeroIsNoHeader(nodes, zeros[i].key);
    }
  }

  /** When no member of the task is a header field, no write of the first phase reaches one, inside a struct body or not; a
      node named like one would have to be a configured struct. */
  lemma NoEarlyHeader(m: Machine, nodes: Nodes, maxWrite: nat, structWrite: bool, known: map<string, Verified>, members: seq<Member>,
                      t: Submission, structs: map<string, Verified>, r: Result<Header, OpcError>)
    requires TaskDone(m, nodes, maxWrite, structWrite, known, members, t, structs, r)
    requires forall i | 0 <= i < |members| :: NormalizePath(members[i].path).Ok? ==> !IsHeaderPath(NormalizePath(members[i].path).value)
    ensures forall key | key in Effect(known, Sent(t.First())) :: !IsHeaderPath(key)
    ensures forall k | 0 <= k < |Sent(t.First())| && IsHeaderPath(Sent(t.First())[k].key) :: Sent(t.First())[k].key in known
  {
    if exists i :: 0 <= i < |members| && NormalizePath(members[i].path).Err? {
      assert t.First() == [];
    } else {
      forall i | 0 <= i < |t.items| ensures !IsHeaderPath(t.items[i].key) { assert ItemOf(members[i], t.items[i]); }
      PhaseIsFirst(m, nodes, maxWrite, structWrite, known, t.items, t.zeros, t.phase, structs, t.done);
      NoHeaderIn(nodes, t.items, t.zeros, known, t.First());
    }
  }

  lemma NoHeaderIn(nodes: Nodes, items: seq<Item>, zeros: seq<Item>, structs: map<string, Verified>, first: seq<Request>)
    requires ZeroesOk(nodes, items, zeros) && FirstKeys(first, items, zeros, structs)
    requires forall i | 0 <= i < |items| :: !IsHeaderPath(items[i].key)
    ensures forall key | key in Effect(structs, Sent(first)) :: !IsHeaderPath(key)
    ensures forall k | 0 <= k < |Sent(first)| && IsHeaderPath(Sent(first)[k].key) :: Sent(first)[k].key in structs
  {
    forall key | key in Effect(structs, Sent(first)) ensures !IsHeaderPath(key) {
      EffectIsGiven(structs, Sent(first), items, zeros, key);
      NotAHeader(nodes, items, zeros, key);
    }
    forall k | 0 <= k < |Sent(first)| && IsHeaderPath(Sent(first)[k].key) ensures Sent(first)[k].key in structs {
      assert NamesGiven(Sent(first)[k], items, zeros, structs);
      if Sent(first)[k].payload.Scalar? { NotAHeader(nodes, items, zeros, Sent(first)[k].key); }
    }
  }

  // ---------------------------------------------------------------- how a submission ends

  /** A header request is sent only after every member and every zero was acknowledged; then the call ends as the header does. */
  lemma HeaderComesLast(m: Machine, nodes: Nodes, maxWrite: nat, structWrite: bool, known: map<string, Verified>, members: seq<Member>,
                        t: Submission, structs: map<string, Verified>, r: Result<Header, OpcError>)
    requires TaskDone(m, nodes, maxWrite, structWrite, known, members, t, structs, r)
    requires r.Ok? || t.Second() != [] || r.error.HeaderUncertain?
    ensures t.done.Ok? && Normalized(members, t.items) && ZeroesOk(nodes, t.items, t.zeros)
    ensures FirstPhase(m, nodes, known, t.items, t.zeros, WayOf(t.phase), t.Acked()) && EndsWith(t.First(), t.Acked())
    ensures t.second.Some? && HeaderDone(m, nodes, maxWrite, t.header, t.second.value, r)
  {
    if !(exists i :: 0 <= i < |members| && NormalizePath(members[i].path).Err?) {
      PhaseIsFirst(m, nodes, maxWrite, structWrite, known, t.items, t.zeros, t.phase, structs, t.done);
      if t.done.Ok? { HeaderEnds(m, nodes, maxWrite, t.header, t.second.value, r); }
    }
  }

  lemma HeaderEnds(m: Machine, nodes: Nodes, maxWrite: nat, h: Header, a: Attempt, r: Result<Header, OpcError>)
    requires HeaderDone(m, nodes, maxWrite, h, a, r)
    ensures r.Ok? ==> r.value == h
  {
  }

  /** The group of writes can be made, there is a session, and every request of it is acknowledged. */
  predicate GoesWell(m: Machine, nodes: Nodes, a: Attempt) {
    (a.items == [] && a.extra == []) || (a.online && Plan(m, nodes, a.items).Ok? && AllAcked(a.qs))
  }

  lemma AttemptEndsWell(m: Machine, nodes: Nodes, maxWrite: nat, a: Attempt)
    requires AttemptDone(m, nodes, maxWrite, a)
    ensures a.r.Ok? <==> GoesWell(m, nodes, a)
  {
    if a.r.Err? && a.qs != [] { assert !Acked(a.qs[|a.qs| - 1]); }
  }

  /** The attempt that decides the first phase. */
  predicate FirstGoesWell(m: Machine, nodes: Nodes, attempts: Attempts) {
    match attempts
    case Never => false
    case Once(a) => GoesWell(m, nodes, a)
    case Twice(_, b) => GoesWell(m, nodes, b)
  }

  /** A submission ends well exactly when every path normalizes, what packs can be encoded, and the groups of writes that count, the
      last one of the members and the header, can be made and are acknowledged. Nothing else makes it fail. */
  lemma TaskEndsWell(m: Machine, nodes: Nodes, maxWrite: nat, structWrite: bool, known: map<string, Verified>, members: seq<Member>,
                     t: Submission, structs: map<string, Verified>, r: Result<Header, OpcError>)
    requires TaskDone(m, nodes, maxWrite, structWrite, known, members, t, structs, r)
    ensures r.Ok? <==>
      && (forall i | 0 <= i < |members| :: NormalizePath(members[i].path).Ok?)
      && t.phase.tried.Ok? && FirstGoesWell(m, nodes, t.phase.attempts)
      && t.second.Some? && GoesWell(m, nodes, t.second.value)
    ensures t.second.Some? <==> t.done.Ok?
  {
    if t.second.Some? { AttemptEndsWell(m, nodes, maxWrite, t.second.value); }
    if forall i | 0 <= i < |members| :: NormalizePath(members[i].path).Ok? {
      FirstEndsWell(m, nodes, maxWrite, structWrite, known, t.items, t.zeros, t.phase, structs, t.done);
    }
  }

  lemma FirstEndsWell(m: Machine, nodes: Nodes, maxWrite: nat, structWrite: bool, known: map<string, Verified>, items: seq<Item>, zeros: seq<Item>,
                      p: Phase, structs: map<string, Verified>, done: Result<(), OpcError>)
    requires PhaseDone(m, nodes, maxWrite, structWrite, known, items, zeros, p, structs, done)
    ensures done.Ok? <==> p.tried.Ok? && FirstGoesWell(m, nodes, p.attempts)
  {
    match p.attempts
    case Never =>
    case Once(a) => AttemptEndsWell(m, nodes, maxWrite, a);
    case Twice(_, b) => AttemptEndsWell(m, nodes, maxWrite, b);
  }

  // ---------------------------------------------------------------- the store after the first phase

  lemma EffectSnoc(structs: map<string, Verified>, ws: seq<Write>, w: Write)
    requires w.payload.Scalar?
    ensures Effect(structs, ws + [w]) == Effect(structs, ws)[w.key := w.payload.v]
  {
    assert (ws + [w])[..|ws|] == ws;
  }

  lemma PlanOfLast(m: Machine, nodes: Nodes, front: seq<Item>, last: Item)
    requires Plan(m, nodes, front + [last]).Ok?
    ensures Plan(m, nodes, front).Ok? && LeafOk(m, nodes.kinds, last)
    ensures Plan(m, nodes, front + [last]).value
         == Plan(m, nodes, front).value + [Write(last.key, Scalar(Coerce(m, last.value, KindOf(nodes.kinds, last.key)).value))]
  {
    PlanSnoc(m, nodes, front, last);
  }

  lemma {:induction false} EffectOfPlan(m: Machine, nodes: Nodes, structs: map<string, Verified>, ws: seq<Write>, items: seq<Item>)
    requires Plan(m, nodes, items).Ok?
    ensures LeavesOk(m, nodes.kinds, items)
    ensures Effect(structs, ws + Plan(m, nodes, items).value) == Effect(structs, ws) + LeafStore(m, nodes.kinds, items)
    decreases |items|
  {
    if items == [] {
      assert ws + [] == ws;
    } else {
      var front, last := items[..|items| - 1], items[|items| - 1];
      assert items == front + [last];
      PlanOfLast(m, nodes, front, last);
      EffectOfPlan(m, nodes, structs, ws, front);
      EffectOfLast(m, nodes, structs, ws, front, last, Plan(m, nodes, front).value);
    }
  }

  lemma EffectOfLast(m: Machine, nodes: Nodes, structs: map<string, Verified>, ws: seq<Write>, front: seq<Item>, last: Item, pw: seq<Write>)
    requires LeavesOk(m, nodes.kinds, front) && LeafOk(m, nodes.kinds, last)
    requires Effect(structs, ws + pw) == Effect(structs, ws) + LeafStore(m, nodes.kinds, front)
    ensures var w := Write(last.key, Scalar(Coerce(m, last.value, KindOf(nodes.kinds, last.key)).value));
      LeavesOk(m, nodes.kinds, front + [last])
      && Effect(structs, ws + (pw + [w])) == Effect(structs, ws) + LeafStore(m, nodes.kinds, front + [last])
  {
    var w := Write(last.key, Scalar(Coerce(m, last.value, KindOf(nodes.kinds, last.key)).value));
    assert ws + (pw + [w]) == (ws + pw) + [w];
    EffectSnoc(structs, ws + pw, w);
    LeafStoreSnoc(m, nodes.kinds, front, last);
    LastWins(Effect(structs, ws), LeafStore(m, nodes.kinds, front), last.key, w.payload.v);
  }

  lemma {:induction false} EffectOfStructs(structs: map<string, Verified>, extra: seq<Extra>)
    requires AllReadable(structs, extra)
    ensures Effect(structs, StructWrites(extra)) == ExtraStore(structs, extra)
  {
    if extra != [] {
      var n := |extra| - 1;
      EffectOfStructs(structs, extra[..n]);
      assert StructWrites(extra)[..n] == StructWrites(extra[..n]);
      assert Readable(structs, extra[n]);
    }
  }

  lemma BothLeavesOk(m: Machine, kinds: Kinds, a: seq<Item>, b: seq<Item>)
    requires LeavesOk(m, kinds, a) && LeavesOk(m, kinds, b)
    ensures LeavesOk(m, kinds, a + b)
  {
    forall i | 0 <= i < |a + b| ensures LeafOk(m, kinds, (a + b)[i]) {
      if i >= |a| { assert LeafOk(m, kinds, b[i - |a|]); }
    }
  }

  lemma LastWins(a: Store, b: Store, key: string, v: Variant)
    ensures (a + b)[key := v] == a + b[key := v]
  {
  }

  lemma {:induction false} LeafStoreConcat(m: Machine, kinds: Kinds, a: seq<Item>, b: seq<Item>)
    requires LeavesOk(m, kinds, a) && LeavesOk(m, kinds, b) && LeavesOk(m, kinds, a + b)
    ensures LeafStore(m, kinds, a + b) == LeafStore(m, kinds, a) + LeafStore(m, kinds, b)
  {
    if b == [] {
      assert a + b == a;
    } else {
      var front, last := b[..|b| - 1], b[|b| - 1];
      BothLeavesOk(m, kinds, a, front);
      LeafStoreConcat(m, kinds, a, front);
      assert LeafOk(m, kinds, last);
      LastWins(LeafStore(m, kinds, a), LeafStore(m, kinds, front), last.key, Coerce(m, last.value, KindOf(kinds, last.key)).value);
      assert (a + b)[..|a + b| - 1] == a + front;
    }
  }

  lemma LeavesOkConcat(m: Machine, kinds: Kinds, a: seq<Item>, b: seq<Item>)
    requires LeavesOk(m, kinds, a + b)
    ensures LeavesOk(m, kinds, b)
  {
    forall i | 0 <= i < |b| ensures LeafOk(m, kinds, b[i]) { assert (a + b)[|a| + i] == b[i]; }
  }

  /** From an empty store, the acknowledged attempt leaves what leaf writes of all members and zeros leave. */
  lemma AttemptIsLeafWrites(m: Machine, nodes: Nodes, structs: map<string, Verified>, items: seq<Item>, zeros: seq<Item>, way: Way, ack: seq<Request>)
    requires Lawful(m) && FirstPhase(m, nodes, structs, items, zeros, way, ack) && LeavesOk(m, nodes.kinds, items)
    requires way.AsStructs? ==> Packable(m, nodes.kinds, structs, items, way.owners)
    ensures LeavesOk(m, nodes.kinds, items + zeros)
    ensures Effect(structs, Sent(ack)) == LeafStore(m, nodes.kinds, items + zeros)
  {
    match way
    case AsLeaves =>
      EffectOfPlan(m, nodes, structs, [], items + zeros);
      assert [] + Sent(ack) == Sent(ack);
    case AsStructs(p, owners) =>
      PackedMeansLeafWrites(m, nodes.kinds, structs, items, owners, p);
      EffectOfStructs(structs, p.extra);
      EffectOfPlan(m, nodes, structs, StructWrites(p.extra), p.rest + zeros);
      LeavesOkConcat(m, nodes.kinds, p.rest, zeros);
      BothLeavesOk(m, nodes.kinds, items, zeros);
      LeafStoreConcat(m, nodes.kinds, p.rest, zeros);
      LeafStoreConcat(m, nodes.kinds, items, zeros);
      MergeAssoc(ExtraStore(structs, p.extra), LeafStore(m, nodes.kinds, p.rest), LeafStore(m, nodes.kinds, zeros));
  }

  /** The writes on top of what the server held before. */
  function EffectOn(before: Store, structs: map<string, Verified>, ws: seq<Write>): Store {
    if ws == [] then before
    else
      var now, w := EffectOn(before, structs, ws[..|ws| - 1]), ws[|ws| - 1];
      match w.payload
      case Scalar(v) => now[w.key := v]
      case Body(_, bytes) => now + BodyStore(structs, w.key, bytes)
  }

  lemma {:induction false} EffectOnIs(before: Store, structs: map<string, Verified>, ws: seq<Write>)
    ensures EffectOn(before, structs, ws) == before + Effect(structs, ws)
  {
    if ws != [] {
      var front, w := ws[..|ws| - 1], ws[|ws| - 1];
      EffectOnIs(before, structs, front);
      match w.payload
      case Scalar(v) => LastWins(before, Effect(structs, front), w.key, v);
      case Body(_, bytes) => MergeAssoc(before, Effect(structs, front), BodyStore(structs, w.key, bytes));
    }
  }

  /** Some of the writes may have been applied, in any order. */
  ghost predicate MaybeApplied(before: Store, mid: Store, structs: map<string, Verified>, ws: seq<Write>) {
    forall key | key !in Effect(structs, ws) :: (key in mid <==> key in before) && (key in mid ==> mid[key] == before[key])
  }

  /** The requests of the attempts before the acknowledged one. */
  function Earlier(first: seq<Request>, ack: seq<Request>): seq<Request> {
    if |ack| <= |first| then first[..|first| - |ack|] else []
  }

  /** When the first phase is through, the server holds what it held before the call, with exactly the leaf writes of all
      members and zeros on top: whichever way was taken, and whatever of a refused attempt was applied. */
  lemma TaskIsStored(m: Machine, nodes: Nodes, maxWrite: nat, structWrite: bool, known: map<string, Verified>, items: seq<Item>, zeros: seq<Item>,
                     p: Phase, structs: map<string, Verified>, before: Store, mid: Store)
    requires Lawful(m) && PhaseDone(m, nodes, maxWrite, structWrite, known, items, zeros, p, structs, Ok(()))
    requires LeavesOk(m, nodes.kinds, items)
    requires WayOf(p).AsStructs? ==> Packable(m, nodes.kinds, known, items, p.owners)
    requires MaybeApplied(before, mid, known, Sent(Earlier(p.attempts.Requests(), p.attempts.Last())))
    ensures LeavesOk(m, nodes.kinds, items + zeros)
    ensures EffectOn(mid, known, Sent(p.attempts.Last())) == before + LeafStore(m, nodes.kinds, items + zeros)
  {
    PhaseIsFirst(m, nodes, maxWrite, structWrite, known, items, zeros, p, structs, Ok(()));
    PhaseIsStored(m, nodes, known, items, zeros, WayOf(p), p.attempts.Last(), p.attempts.Requests(), before, mid);
  }

  lemma PhaseIsStored(m: Machine, nodes: Nodes, structs: map<string, Verified>, items: seq<Item>, zeros: seq<Item>, way: Way, ack: seq<Request>,
                      first: seq<Request>, before: Store, mid: Store)
    requires Lawful(m) && FirstPhase(m, nodes, structs, items, zeros, way, ack) && FirstKeys(first, items, zeros, structs)
    requires LeavesOk(m, nodes.kinds, items) && (way.AsStructs? ==> Packable(m, nodes.kinds, structs, items, way.owners))
    requires EndsWith(first, ack) && MaybeApplied(before, mid, structs, Sent(Earlier(first, ack)))
    ensures LeavesOk(m, nodes.kinds, items + zeros)
    ensures EffectOn(mid, structs, Sent(ack)) == before + LeafStore(m, nodes.kinds, items + zeros)
  {
    AttemptIsLeafWrites(m, nodes, structs, items, zeros, way, ack);
    EffectOnIs(mid, structs, Sent(ack));
    WrittenAgain(m, nodes, structs, items, zeros, first, ack);
    OverlaySame(before, mid, Effect(structs, Sent(Earlier(first, ack))), LeafStore(m, nodes.kinds, items + zeros));
  }

  lemma WrittenAgain(m: Machine, nodes: Nodes, structs: map<string, Verified>, items: seq<Item>, zeros: seq<Item>, first: seq<Request>, ack: seq<Request>)
    requires FirstKeys(first, items, zeros, structs) && EndsWith(first, ack) && LeavesOk(m, nodes.kinds, items + zeros)
    ensures forall key | key in Effect(structs, Sent(Earlier(first, ack))) :: key in LeafStore(m, nodes.kinds, items + zeros)
  {
    var earlier := Earlier(first, ack);
    assert first == earlier + ack;
    EarlierKeys(earlier, ack, items, zeros, structs);
    forall key | key in Effect(structs, Sent(earlier)) ensures key in LeafStore(m, nodes.kinds, items + zeros) {
      Overwritten(m, nodes, structs, Sent(earlier), items, zeros, key);
    }
  }

  /** Stores that differ only in keys that are written again. */
  lemma OverlaySame(before: Store, mid: Store, touched: Store, top: Store)
    requires forall key | key !in touched :: (key in mid <==> key in before) && (key in mid ==> mid[key] == before[key])
    requires forall key | key in touched :: key in top
    ensures mid + top == before + top
  {
  }

  lemma EarlierKeys(a: seq<Request>, b: seq<Request>, items: seq<Item>, zeros: seq<Item>, structs: map<string, Verified>)
    requires FirstKeys(a + b, items, zeros, structs)
    ensures FirstKeys(a, items, zeros, structs)
  {
    SentConcat(a, b);
    forall i | 0 <= i < |Sent(a)| ensures NamesGiven(Sent(a)[i], items, zeros, structs) { assert Sent(a + b)[i] == Sent(a)[i]; }
  }

  /** What a refused attempt may have changed is written again. */
  lemma Overwritten(m: Machine, nodes: Nodes, structs: map<string, Verified>, ws: seq<Write>, items: seq<Item>, zeros: seq<Item>, key: string)
    requires KeysOk(ws, items, zeros, structs) && key in Effect(structs, ws) && LeavesOk(m, nodes.kinds, items + zeros)
    ensures key in LeafStore(m, nodes.kinds, items + zeros)
  {
    EffectIsGiven(structs, ws, items, zeros, key);
    if HasKey(items, key) {
      var i :| 0 <= i < |items| && items[i].key == key;
      assert (items + zeros)[i].key == key;
    } else {
      var i :| 0 <= i < |zeros| && zeros[i].key == key;
      assert (items + zeros)[|items| + i].key == key;
    }
    LeafStoreHas(m, nodes.kinds, items + zeros, key);
  }

  lemma MergeAssoc(a: Store, b: Store, c: Store)
    ensures a + (b + c) == a + b + c
  {
  }
}
