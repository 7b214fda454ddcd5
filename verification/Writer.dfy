/** Submitting a task: `crates/opcua-cmd/src/writer.rs`. The server is an unknown partner that may fail any request; `log`
    keeps what was asked and what came back. */
module Writer {
  import opened Wrappers
  import opened Path
  import opened Values
  import opened Structs
  import opened Pack
  import opened PackMeaning
  import opened NodeLookup
  import opened Counters

  datatype Member = Member(path: string, value: PlcValue)

  datatype Header = Header(protocol: nat, cmdId: nat, cmd: nat, src: nat, dst: nat, seqNo: nat)

  datatype OpcError =
    | NotReady
    | MemberMissing(key: string)
    | Status(key: string, code: nat)
    | Timeout
    | Transport
    | Config
    | HeaderUncertain(header: Header)

  datatype Payload = Scalar(v: Variant) | Body(encoding: string, bytes: seq<Byte>)

  datatype Write = Write(key: string, payload: Payload)

  /** No answer in time, a service error (`timedOut` when its code says so), or one code per node. */
  datatype Answer = NoAnswer | ServiceError(timedOut: bool) | Codes(codes: seq<nat>)

  datatype Request = Request(writes: seq<Write>, answer: Answer)

  // ---------------------------------------------------------------- one request

  predicate Good(code: nat) {
    code < 0x4000_0000
  }

  predicate Answered(q: Request) {
    q.answer.Codes? && |q.answer.codes| == |q.writes|
  }

  predicate Acked(q: Request) {
    Answered(q) && forall i | 0 <= i < |q.writes| :: Good(q.answer.codes[i])
  }

  predicate AllAcked(qs: seq<Request>) {
    forall i | 0 <= i < |qs| :: Acked(qs[i])
  }

  /** What a request that was not acknowledged is reported as. */
  predicate Reports(q: Request, e: OpcError) {
    match q.answer
    case NoAnswer => e == Timeout
    case ServiceError(t) => e == if t then Timeout else Transport
    case Codes(codes) =>
      if |codes| != |q.writes| then e == Transport
      else exists i :: 0 <= i < |codes| && !Good(codes[i]) && e == Status(q.writes[i].key, codes[i]) && forall j | 0 <= j < i :: Good(codes[j])
  }

  function Sent(qs: seq<Request>): seq<Write> {
    if qs == [] then [] else Sent(qs[..|qs| - 1]) + qs[|qs| - 1].writes
  }

  lemma SentSnoc(qs: seq<Request>, q: Request)
    ensures Sent(qs + [q]) == Sent(qs) + q.writes
  {
    assert (qs + [q])[..|qs|] == qs;
  }

  /** The requests `qs` carried `writes` in order, up to the first that was not acknowledged. */
  predicate Carries(qs: seq<Request>, writes: seq<Write>, r: Result<(), OpcError>) {
    match r
    case Ok(_) => AllAcked(qs) && Sent(qs) == writes
    case Err(e) =>
      && qs != [] && AllAcked(qs[..|qs| - 1]) && !Acked(qs[|qs| - 1]) && Reports(qs[|qs| - 1], e)
      && |Sent(qs)| <= |writes| && Sent(qs) == writes[..|Sent(qs)|]
  }

  /** Every request carries as many writes as the server takes, only the last one may carry fewer. */
  predicate Chunked(qs: seq<Request>, writes: seq<Write>, maxWrite: nat) {
    && (forall i | 0 <= i < |qs| :: 1 <= |qs[i].writes| && (maxWrite > 0 ==> |qs[i].writes| <= maxWrite))
    && (forall i | 0 <= i < |qs| - 1 :: maxWrite > 0 && |qs[i].writes| == maxWrite)
    && (qs != [] && (maxWrite == 0 || |qs[|qs| - 1].writes| < maxWrite) ==> Sent(qs) == writes)
  }

  /** The requests so far, of `per` writes each; the last may carry fewer when it is the end. */
  predicate InChunks(qs: seq<Request>, per: nat, atEnd: bool) {
    && (forall i | 0 <= i < |qs| :: 1 <= |qs[i].writes| <= per)
    && (forall i | 0 <= i < |qs| :: |qs[i].writes| == per || (atEnd && i == |qs| - 1))
  }

  /** `at` writes have been sent and acknowledged. */
  predicate Progress(qs: seq<Request>, writes: seq<Write>, at: nat, per: nat) {
    && at <= |writes| && AllAcked(qs) && Sent(qs) == writes[..at] && InChunks(qs, per, at == |writes|)
    && (per >= |writes| && qs != [] ==> at == |writes| && |qs| == 1)
  }

  predicate IsChunk(q: Request, writes: seq<Write>, at: nat, end: nat, per: nat) {
    at < end <= |writes| && q.writes == writes[at..end] && (end - at == per || (end == |writes| && end - at <= per))
  }

  lemma NextChunk(qs: seq<Request>, q: Request, writes: seq<Write>, at: nat, end: nat, per: nat)
    requires Progress(qs, writes, at, per) && IsChunk(q, writes, at, end, per)
    ensures Sent(qs + [q]) == writes[..end] && InChunks(qs + [q], per, end == |writes|)
    ensures per >= |writes| ==> end == |writes| && |qs + [q]| == 1
    ensures Acked(q) ==> Progress(qs + [q], writes, end, per)
  {
    SentSnoc(qs, q);
    assert writes[..at] + q.writes == writes[..end];
  }

  lemma LastChunk(qs: seq<Request>, writes: seq<Write>, end: nat, maxWrite: nat, per: nat)
    requires end <= |writes| && Sent(qs) == writes[..end] && InChunks(qs, per, end == |writes|)
    requires per == if maxWrite == 0 then (if |writes| == 0 then 1 else |writes|) else maxWrite
    requires per >= |writes| && qs != [] ==> end == |writes| && |qs| == 1
    ensures Chunked(qs, writes, maxWrite)
  {
    assert writes[..|writes|] == writes;
  }

  /** The chunk was not acknowledged: it was the last. */
  lemma Stopped(qs: seq<Request>, q: Request, writes: seq<Write>, end: nat, e: OpcError)
    requires AllAcked(qs) && end <= |writes| && Sent(qs + [q]) == writes[..end] && !Acked(q) && Reports(q, e)
    ensures Carries(qs + [q], writes, Err(e))
  {
    assert (qs + [q])[..|qs|] == qs && (qs + [q])[|qs|] == q;
  }

  lemma StoppedAt(qs: seq<Request>, q: Request, writes: seq<Write>, at: nat, end: nat, maxWrite: nat, per: nat, e: OpcError)
    requires Progress(qs, writes, at, per) && IsChunk(q, writes, at, end, per) && !Acked(q) && Reports(q, e)
    requires per == if maxWrite == 0 then (if |writes| == 0 then 1 else |writes|) else maxWrite
    ensures Carries(qs + [q], writes, Err(e)) && Chunked(qs + [q], writes, maxWrite)
  {
    NextChunk(qs, q, writes, at, end, per);
    Stopped(qs, q, writes, end, e);
    LastChunk(qs + [q], writes, end, maxWrite, per);
  }

  lemma AllSent(qs: seq<Request>, writes: seq<Write>, maxWrite: nat, per: nat)
    requires Progress(qs, writes, |writes|, per)
    requires per == if maxWrite == 0 then (if |writes| == 0 then 1 else |writes|) else maxWrite
    ensures Carries(qs, writes, Ok(())) && Chunked(qs, writes, maxWrite)
  {
    LastChunk(qs, writes, |writes|, maxWrite, per);
    assert writes[..|writes|] == writes;
  }

  // ---------------------------------------------------------------- planning

  function WriteFor(m: Machine, nodes: Nodes, item: Item): Result<Write, OpcError> {
    match Lookup(nodes, item.key)
    case Err(NodeMissing(key)) => Err(MemberMissing(key))
    case Err(BadNodeId(_)) => Err(Config)
    case Ok(kind) =>
      match Coerce(m, item.value, kind)
      case None => Err(Config)
      case Some(v) => Ok(Write(item.key, Scalar(v)))
  }

  /** The writes of the members, or the first error. */
  function Plan(m: Machine, nodes: Nodes, items: seq<Item>): Result<seq<Write>, OpcError> {
    if items == [] then Ok([])
    else
      match Plan(m, nodes, items[..|items| - 1])
      case Err(e) => Err(e)
      case Ok(ws) =>
        match WriteFor(m, nodes, items[|items| - 1])
        case Err(e) => Err(e)
        case Ok(w) => Ok(ws + [w])
  }

  lemma PlanSnoc(m: Machine, nodes: Nodes, items: seq<Item>, item: Item)
    ensures Plan(m, nodes, items + [item]) ==
      match Plan(m, nodes, items)
      case Err(e) => Err(e)
      case Ok(ws) =>
        match WriteFor(m, nodes, item)
        case Err(e) => Err(e)
        case Ok(w) => Ok(ws + [w])
  {
    assert (items + [item])[..|items|] == items;
  }

  lemma {:induction false} PlanFails(m: Machine, nodes: Nodes, items: seq<Item>, n: nat)
    requires n <= |items| && Plan(m, nodes, items[..n]).Err?
    ensures Plan(m, nodes, items) == Plan(m, nodes, items[..n])
    decreases |items| - n
  {
    if n < |items| {
      assert items[..n + 1] == items[..n] + [items[n]];
      PlanSnoc(m, nodes, items[..n], items[n]);
      PlanFails(m, nodes, items, n + 1);
    } else {
      assert items[..n] == items;
    }
  }

  function StructWrites(extra: seq<Extra>): (ws: seq<Write>)
    ensures |ws| == |extra| && forall i | 0 <= i < |extra| :: ws[i] == Write(extra[i].member, Body(extra[i].encoding, extra[i].body))
  {
    seq(|extra|, i requires 0 <= i < |extra| => Write(extra[i].member, Body(extra[i].encoding, extra[i].body)))
  }

  // ---------------------------------------------------------------- the header

  const HEADER_PATHS: seq<string> := ["Header.Protocol", "Header.CMD_ID", "Header.CMD", "Header.SRC", "Header.DST", "Header.SEQ"]

  function HeaderItems(h: Header): (items: seq<Item>)
    ensures |items| == 6 && forall i | 0 <= i < 6 :: items[i].key == HEADER_PATHS[i]
  {
    [Item(HEADER_PATHS[0], Int(U8, h.protocol)), Item(HEADER_PATHS[1], Int(U8, h.cmdId)), Item(HEADER_PATHS[2], Int(U8, h.cmd)),
     Item(HEADER_PATHS[3], Int(U16, h.src)), Item(HEADER_PATHS[4], Int(U16, h.dst)), Item(HEADER_PATHS[5], Int(U16, h.seqNo))]
  }

  // ---------------------------------------------------------------- one group of writes

  /** One call of `write_batch_with`: what it had to write, whether a session was there, what was sent, how it ended. */
  datatype Attempt = Attempt(items: seq<Item>, extra: seq<Extra>, online: bool, qs: seq<Request>, r: Result<(), OpcError>)
  {
    function Offline(): nat {
      if online then 0 else 1
    }
  }

  /** The struct writes and the writes of the members, or the first error. */
  function PlanAll(m: Machine, nodes: Nodes, items: seq<Item>, extra: seq<Extra>): Result<seq<Write>, OpcError> {
    match Plan(m, nodes, items)
    case Err(e) => Err(e)
    case Ok(ws) => Ok(StructWrites(extra) + ws)
  }

  lemma Unplanned(m: Machine, nodes: Nodes, maxWrite: nat, items: seq<Item>, extra: seq<Extra>, e: OpcError)
    requires (items != [] || extra != []) && PlanAll(m, nodes, items, extra) == Err(e)
    ensures AttemptDone(m, nodes, maxWrite, Attempt(items, extra, true, [], Err(e)))
  {
  }

  lemma SentAttempt(m: Machine, nodes: Nodes, maxWrite: nat, items: seq<Item>, extra: seq<Extra>, ws: seq<Write>, qs: seq<Request>, r: Result<(), OpcError>)
    requires (items != [] || extra != []) && PlanAll(m, nodes, items, extra) == Ok(ws)
    requires Carries(qs, ws, r) && Chunked(qs, ws, maxWrite)
    ensures AttemptDone(m, nodes, maxWrite, Attempt(items, extra, true, qs, r))
  {
  }

  /** Nothing to write is well; without a session nothing is sent; nor when a member cannot be written; else the writes go out,
      structs first, as far as the server acknowledges them. */
  predicate AttemptDone(m: Machine, nodes: Nodes, maxWrite: nat, a: Attempt) {
    if a.items == [] && a.extra == [] then a.online && a.qs == [] && a.r == Ok(())
    else if !a.online then a.qs == [] && a.r == Err(NotReady)
    else
      match PlanAll(m, nodes, a.items, a.extra)
      case Err(e) => a.qs == [] && a.r == Err(e)
      case Ok(ws) => Carries(a.qs, ws, a.r) && Chunked(a.qs, ws, maxWrite)
  }

  // ---------------------------------------------------------------- the first phase

  predicate ItemOf(member: Member, item: Item) {
    NormalizePath(member.path) == Ok(item.key) && item.value == member.value
  }

  /** The members by their normalized paths. */
  predicate Normalized(members: seq<Member>, items: seq<Item>) {
    |items| == |members| && forall i | 0 <= i < |members| :: ItemOf(members[i], items[i])
  }

  /** The members a task zeroes when it does not give them. */
  function ZeroPaths(nodes: Nodes): seq<string> {
    PathsWithPrefix(nodes.order, "Command.") + ArrayElements(nodes.order, "Data")
  }

  /** `zeros` writes one zero for every one of `paths` that is not given. */
  predicate ZeroesFor(paths: seq<string>, items: seq<Item>, zeros: seq<Item>) {
    && (forall i | 0 <= i < |zeros| :: zeros[i].value == Int(U8, 0) && zeros[i].key in paths && !HasKey(items, zeros[i].key))
    && (forall i, j | 0 <= i < j < |zeros| :: zeros[i].key != zeros[j].key)
    && (forall k | 0 <= k < |paths| :: HasKey(items, paths[k]) || HasKey(zeros, paths[k]))
  }

  predicate ZeroesOk(nodes: Nodes, items: seq<Item>, zeros: seq<Item>) {
    ZeroesFor(ZeroPaths(nodes), items, zeros)
  }

  method NormalizeOne(member: Member) returns (r: Result<Item, PathError>)
    ensures r.Ok? ==> ItemOf(member, r.value)
    ensures r.Err? ==> NormalizePath(member.path) == Err(r.error)
  {
    var key := NormalizePath(member.path);
    match key
    case Ok(k) => return Ok(Item(k, member.value));
    case Err(e) => return Err(e);
  }

  /** The first path that does not normalize. */
  predicate FirstUnnamed(members: seq<Member>, i: nat) {
    i < |members| && NormalizePath(members[i].path).Err? && forall j | 0 <= j < i :: NormalizePath(members[j].path).Ok?
  }

  method Normalize(members: seq<Member>) returns (r: Result<seq<Item>, PathError>)
    ensures r.Ok? ==> Normalized(members, r.value)
    ensures r.Err? ==> exists i :: 0 <= i < |members| && FirstUnnamed(members, i) && NormalizePath(members[i].path) == Err(r.error)
  {
    var items := [];
    for i := 0 to |members|
      invariant |items| == i && forall j | 0 <= j < i :: ItemOf(members[j], items[j])
    {
      var item := NormalizeOne(members[i]);
      if item.Err? {
        assert forall j | 0 <= j < i :: ItemOf(members[j], items[j]);
        assert FirstUnnamed(members, i);
        return Err(item.error);
      }
      items := items + [item.value];
    }
    return Ok(items);
  }

  lemma ZeroStays(paths: seq<string>, items: seq<Item>, zeros: seq<Item>, p: string)
    requires ZeroesFor(paths, items, zeros) && (HasKey(items, p) || HasKey(zeros, p))
    ensures ZeroesFor(paths + [p], items, zeros)
  {
  }

  lemma ZeroAdded(paths: seq<string>, items: seq<Item>, zeros: seq<Item>, p: string)
    requires ZeroesFor(paths, items, zeros) && !HasKey(items, p) && !HasKey(zeros, p)
    ensures ZeroesFor(paths + [p], items, zeros + [Item(p, Int(U8, 0))])
  {
    var more := zeros + [Item(p, Int(U8, 0))];
    forall k | 0 <= k < |paths + [p]| ensures HasKey(items, (paths + [p])[k]) || HasKey(more, (paths + [p])[k]) {
      HasKeySnoc(zeros, Item(p, Int(U8, 0)), (paths + [p])[k]);
    }
    assert (paths + [p])[|paths|] == p;
  }

  /** Every path of the first list that is not given gets one zero. */
  method Zeroes(nodes: Nodes, items: seq<Item>) returns (zeros: seq<Item>)
    ensures ZeroesOk(nodes, items, zeros)
  {
    var paths := ZeroPaths(nodes);
    zeros := [];
    for k := 0 to |paths|
      invariant ZeroesFor(paths[..k], items, zeros)
    {
      var p := paths[k];
      assert paths[..k + 1] == paths[..k] + [p];
      if !HasKey(items, p) && !HasKey(zeros, p) {
        ZeroAdded(paths[..k], items, zeros, p);
        zeros := zeros + [Item(p, Int(U8, 0))];
      } else {
        ZeroStays(paths[..k], items, zeros, p);
      }
    }
    assert paths[..|paths|] == paths;
  }

  lemma {:induction false} PlanErrors(m: Machine, nodes: Nodes, items: seq<Item>)
    ensures Plan(m, nodes, items).Err? ==> Plan(m, nodes, items).error.MemberMissing? || Plan(m, nodes, items).error.Config?
  {
    if items != [] { PlanErrors(m, nodes, items[..|items| - 1]); }
  }

  /** How the first phase went through: as leaf writes, or with some structs packed. */
  datatype Way = AsLeaves | AsStructs(packed: Packed, owners: seq<Option<string>>)

  /** `ack` are the requests that carried the task and its zeros, all acknowledged. */
  ghost predicate FirstPhase(m: Machine, nodes: Nodes, structs: map<string, Verified>, items: seq<Item>, zeros: seq<Item>, way: Way, ack: seq<Request>) {
    && AllAcked(ack)
    && match way
       case AsLeaves => Plan(m, nodes, items + zeros) == Ok(Sent(ack))
       case AsStructs(p, owners) =>
         && PackedBy(m, structs, items, owners, p)
         && Plan(m, nodes, p.rest + zeros).Ok?
         && Sent(ack) == StructWrites(p.extra) + Plan(m, nodes, p.rest + zeros).value
  }

  /** The write is for a member or a zero, or for a struct all of whose leaves are members. */
  predicate NamesGiven(w: Write, items: seq<Item>, zeros: seq<Item>, structs: map<string, Verified>) {
    match w.payload
    case Scalar(_) => HasKey(items, w.key) || HasKey(zeros, w.key)
    case Body(_, _) => w.key in structs && LeavesGiven(structs[w.key].spec.slots, items)
  }

  predicate LeavesGiven(slots: seq<Slot>, items: seq<Item>) {
    forall k | 0 <= k < |slots| && slots[k].Leaf? :: HasKey(items, slots[k].path)
  }

  predicate KeysOk(ws: seq<Write>, items: seq<Item>, zeros: seq<Item>, structs: map<string, Verified>) {
    forall i | 0 <= i < |ws| :: NamesGiven(ws[i], items, zeros, structs)
  }

  /** So are all writes of the first phase. */
  predicate FirstKeys(qs: seq<Request>, items: seq<Item>, zeros: seq<Item>, structs: map<string, Verified>) {
    KeysOk(Sent(qs), items, zeros, structs)
  }

  lemma {:induction false} PlanKeys(m: Machine, nodes: Nodes, items: seq<Item>)
    ensures Plan(m, nodes, items).Ok? ==> |Plan(m, nodes, items).value| == |items|
    ensures Plan(m, nodes, items).Ok? ==> forall i | 0 <= i < |items| :: IsLeafWrite(Plan(m, nodes, items).value[i], items[i].key)
  {
    if items != [] { PlanKeys(m, nodes, items[..|items| - 1]); }
  }

  predicate IsLeafWrite(w: Write, key: string) {
    w.key == key && w.payload.Scalar?
  }

  lemma {:induction false} SentConcat(a: seq<Request>, b: seq<Request>)
    ensures Sent(a + b) == Sent(a) + Sent(b)
  {
    if b == [] {
      assert a + b == a;
    } else {
      var front, last := b[..|b| - 1], b[|b| - 1];
      SentConcat(a, front);
      ConcatAssoc(a, front, [last]);
      assert b == front + [last];
      SentSnoc(a + front, last);
      ConcatAssoc(Sent(a), Sent(front), last.writes);
    }
  }

  lemma KeysOfBoth(a: seq<Request>, b: seq<Request>, items: seq<Item>, zeros: seq<Item>, structs: map<string, Verified>)
    requires FirstKeys(a, items, zeros, structs) && FirstKeys(b, items, zeros, structs)
    ensures FirstKeys(a + b, items, zeros, structs)
  {
    SentConcat(a, b);
  }

  lemma KeysCarried(qs: seq<Request>, ws: seq<Write>, r: Result<(), OpcError>, items: seq<Item>, zeros: seq<Item>, structs: map<string, Verified>)
    requires Carries(qs, ws, r) && KeysOk(ws, items, zeros, structs)
    ensures FirstKeys(qs, items, zeros, structs)
  {
    forall i | 0 <= i < |Sent(qs)| ensures Sent(qs)[i] == ws[i] {}
  }

  lemma LeafKeys(m: Machine, nodes: Nodes, items: seq<Item>, zeros: seq<Item>, structs: map<string, Verified>)
    requires Plan(m, nodes, items + zeros).Ok?
    ensures KeysOk(StructWrites([]) + Plan(m, nodes, items + zeros).value, items, zeros, structs)
  {
    var pw := Plan(m, nodes, items + zeros).value;
    PlanKeys(m, nodes, items + zeros);
    forall i | 0 <= i < |pw| ensures NamesGiven(pw[i], items, zeros, structs) {
      assert IsLeafWrite(pw[i], (items + zeros)[i].key);
      if i < |items| { assert items[i].key == pw[i].key; } else { assert zeros[i - |items|].key == pw[i].key; }
    }
    BothKeysOk(StructWrites([]), pw, items, zeros, structs);
  }

  lemma BothKeysOk(a: seq<Write>, b: seq<Write>, items: seq<Item>, zeros: seq<Item>, structs: map<string, Verified>)
    requires KeysOk(a, items, zeros, structs) && KeysOk(b, items, zeros, structs)
    ensures KeysOk(a + b, items, zeros, structs)
  {
    forall i | 0 <= i < |a + b| ensures NamesGiven((a + b)[i], items, zeros, structs) {
      if i >= |a| { assert NamesGiven(b[i - |a|], items, zeros, structs); }
    }
  }

  lemma PackedKeys(m: Machine, nodes: Nodes, items: seq<Item>, zeros: seq<Item>, structs: map<string, Verified>, p: Packed, owners: seq<Option<string>>)
    requires |owners| == |items| && p.rest == Rest(items, owners) && Plan(m, nodes, p.rest + zeros).Ok?
    requires KeysOk(StructWrites(p.extra), items, zeros, structs)
    ensures KeysOk(StructWrites(p.extra) + Plan(m, nodes, p.rest + zeros).value, items, zeros, structs)
  {
    var pw := Plan(m, nodes, p.rest + zeros).value;
    PlanKeys(m, nodes, p.rest + zeros);
    forall k | 0 <= k < |pw| ensures NamesGiven(pw[k], items, zeros, structs) {
      assert IsLeafWrite(pw[k], (p.rest + zeros)[k].key);
      if k < |p.rest| { RestIsGiven(items, owners, k); } else { assert zeros[k - |p.rest|].key == pw[k].key; }
    }
    BothKeysOk(StructWrites(p.extra), pw, items, zeros, structs);
  }

  lemma PackedMembers(m: Machine, structs: map<string, Verified>, items: seq<Item>, zeros: seq<Item>, owners: seq<Option<string>>, p: Packed)
    requires PackedBy(m, structs, items, owners, p)
    ensures |owners| == |items| && p.rest == Rest(items, owners) && KeysOk(StructWrites(p.extra), items, zeros, structs)
  {
    forall j: nat | j < |p.extra| ensures NamesGiven(StructWrites(p.extra)[j], items, zeros, structs) {
      CompleteGiven(m, structs, items, owners, p.extra[j]);
    }
  }

  lemma CompleteGiven(m: Machine, structs: map<string, Verified>, items: seq<Item>, owners: seq<Option<string>>, e: Extra)
    requires |owners| == |items| && ExtraOk(m, structs, Group(items, owners, e.member), e)
    ensures e.member in structs && LeavesGiven(structs[e.member].spec.slots, items)
  {
    var slots := structs[e.member].spec.slots;
    forall k | 0 <= k < |slots| && slots[k].Leaf? ensures HasKey(items, slots[k].path) { GroupHas(items, owners, e.member, slots[k].path); }
  }

  lemma {:induction false} RestIsGiven(items: seq<Item>, owners: seq<Option<string>>, k: nat)
    requires |owners| == |items| && k < |Rest(items, owners)|
    ensures HasKey(items, Rest(items, owners)[k].key)
  {
    var n := |items| - 1;
    if k < |Rest(items[..n], owners[..n])| {
      RestIsGiven(items[..n], owners[..n], k);
      HasKeySnoc(items[..n], items[n], Rest(items, owners)[k].key);
      assert items == items[..n] + [items[n]];
    }
  }

  lemma ByStructs(m: Machine, nodes: Nodes, structs: map<string, Verified>, items: seq<Item>, zeros: seq<Item>, p: Packed, owners: seq<Option<string>>, ack: seq<Request>)
    requires AllAcked(ack) && PackedBy(m, structs, items, owners, p) && Plan(m, nodes, p.rest + zeros).Ok?
    requires Sent(ack) == StructWrites(p.extra) + Plan(m, nodes, p.rest + zeros).value
    ensures FirstPhase(m, nodes, structs, items, zeros, AsStructs(p, owners), ack)
  {
  }

  // ---------------------------------------------------------------- how the first phase goes

  /** The groups of writes that phase one tried. */
  datatype Attempts = Never | Once(only: Attempt) | Twice(refused: Attempt, again: Attempt)
  {
    function Requests(): seq<Request> {
      match this
      case Never => []
      case Once(a) => a.qs
      case Twice(a, b) => a.qs + b.qs
    }

    /** How often no session was there. */
    function Offlines(): nat {
      match this
      case Never => 0
      case Once(a) => a.Offline()
      case Twice(a, b) => a.Offline() + b.Offline()
    }

    /** The requests of the last of them. */
    function Last(): seq<Request> {
      match this
      case Never => []
      case Once(a) => a.qs
      case Twice(_, b) => b.qs
    }
  }

  /** Phase one: what packing came to, for which choice of structs, and what was tried. */
  datatype Phase = Phase(tried: Result<Option<Packed>, EncodeError>, owners: seq<Option<string>>, attempts: Attempts)

  ghost predicate Tried(m: Machine, structs: map<string, Verified>, items: seq<Item>, p: Phase) {
    match p.tried
    case Err(e) => PackFails(m, structs, items, p.owners, e)
    case Ok(None) => structs == map[] || NothingToPack(structs, items, p.owners)
    case Ok(Some(packed)) => PackedBy(m, structs, items, p.owners, packed)
  }

  /** The server refused one of the structs. */
  predicate Refused(a: Attempt) {
    a.r.Err? && a.r.error.Status? && HasExtra(a.extra, a.r.error.key)
  }

  predicate Tries(a: Attempt, items: seq<Item>, extra: seq<Extra>) {
    a.items == items && a.extra == extra
  }

  /** Members that do not pack are written as leaves; members that do as structs and leaves, and when the server refuses one of
      the structs, all over again as leaves, with no structs in this session any more. */
  ghost predicate PhaseDone(m: Machine, nodes: Nodes, maxWrite: nat, structWrite: bool, known: map<string, Verified>, items: seq<Item>,
                            zeros: seq<Item>, p: Phase, structs: map<string, Verified>, r: Result<(), OpcError>) {
    && (if structWrite then Tried(m, known, items, p) else p.tried == Ok(None))
    && match p.tried
       case Err(_) => p.attempts == Never && r == Err(Config) && structs == known
       case Ok(None) => LeavesDone(m, nodes, maxWrite, items, zeros, p.attempts, r) && structs == known
       case Ok(Some(packed)) => StructsDone(m, nodes, maxWrite, known, items, zeros, packed, p.attempts, structs, r)
  }

  predicate LeavesDone(m: Machine, nodes: Nodes, maxWrite: nat, items: seq<Item>, zeros: seq<Item>, attempts: Attempts, r: Result<(), OpcError>) {
    attempts.Once? && Tries(attempts.only, items + zeros, []) && AttemptDone(m, nodes, maxWrite, attempts.only) && r == attempts.only.r
  }

  predicate StructsDone(m: Machine, nodes: Nodes, maxWrite: nat, known: map<string, Verified>, items: seq<Item>, zeros: seq<Item>, packed: Packed,
                        attempts: Attempts, structs: map<string, Verified>, r: Result<(), OpcError>) {
    match attempts
    case Never => false
    case Once(a) =>
      Tries(a, packed.rest + zeros, packed.extra) && AttemptDone(m, nodes, maxWrite, a) && !Refused(a) && r == a.r && structs == known
    case Twice(a, b) =>
      && Tries(a, packed.rest + zeros, packed.extra) && AttemptDone(m, nodes, maxWrite, a) && Refused(a)
      && Tries(b, items + zeros, []) && AttemptDone(m, nodes, maxWrite, b) && r == b.r && structs == map[]
  }

  /** The attempt that counts went out with structs. */
  function WayOf(p: Phase): Way {
    if p.attempts.Once? && p.tried.Ok? && p.tried.value.Some? then AsStructs(p.tried.value.value, p.owners) else AsLeaves
  }

  lemma LeafAttempt(m: Machine, nodes: Nodes, maxWrite: nat, known: map<string, Verified>, items: seq<Item>, zeros: seq<Item>, a: Attempt)
    requires AttemptDone(m, nodes, maxWrite, a) && Tries(a, items + zeros, [])
    ensures FirstKeys(a.qs, items, zeros, known)
    ensures a.r.Ok? ==> FirstPhase(m, nodes, known, items, zeros, AsLeaves, a.qs)
    ensures a.r.Err? ==> !a.r.error.HeaderUncertain?
  {
    PlanErrors(m, nodes, items + zeros);
    if items + zeros != [] && a.online && Plan(m, nodes, items + zeros).Ok? {
      LeafKeys(m, nodes, items, zeros, known);
      KeysCarried(a.qs, StructWrites([]) + Plan(m, nodes, items + zeros).value, a.r, items, zeros, known);
    }
    if a.r.Ok? { assert items + zeros != [] ==> StructWrites([]) + Plan(m, nodes, items + zeros).value == Plan(m, nodes, items + zeros).value; }
  }

  lemma StructAttempt(m: Machine, nodes: Nodes, maxWrite: nat, known: map<string, Verified>, items: seq<Item>, zeros: seq<Item>, a: Attempt,
                      packed: Packed, owners: seq<Option<string>>)
    requires AttemptDone(m, nodes, maxWrite, a) && Tries(a, packed.rest + zeros, packed.extra) && PackedBy(m, known, items, owners, packed)
    ensures FirstKeys(a.qs, items, zeros, known)
    ensures a.r.Ok? ==> FirstPhase(m, nodes, known, items, zeros, AsStructs(packed, owners), a.qs)
    ensures a.r.Err? ==> !a.r.error.HeaderUncertain?
  {
    PlanErrors(m, nodes, packed.rest + zeros);
    PackedMembers(m, known, items, zeros, owners, packed);
    if a.online && Plan(m, nodes, packed.rest + zeros).Ok? {
      PackedKeys(m, nodes, items, zeros, known, packed, owners);
      KeysCarried(a.qs, StructWrites(packed.extra) + Plan(m, nodes, packed.rest + zeros).value, a.r, items, zeros, known);
    }
    if a.r.Ok? { ByStructs(m, nodes, known, items, zeros, packed, owners, a.qs); }
  }

  predicate FirstOk(items: seq<Item>, zeros: seq<Item>, known: map<string, Verified>, qs: seq<Request>, ack: seq<Request>, r: Result<(), OpcError>) {
    FirstKeys(qs, items, zeros, known) && EndsWith(qs, ack) && (r.Err? ==> !r.error.HeaderUncertain?)
  }

  lemma TwiceIsFirst(m: Machine, nodes: Nodes, maxWrite: nat, known: map<string, Verified>, items: seq<Item>, zeros: seq<Item>,
                     packed: Packed, owners: seq<Option<string>>, a: Attempt, b: Attempt)
    requires AttemptDone(m, nodes, maxWrite, a) && Tries(a, packed.rest + zeros, packed.extra) && PackedBy(m, known, items, owners, packed)
    requires AttemptDone(m, nodes, maxWrite, b) && Tries(b, items + zeros, [])
    ensures FirstKeys(a.qs + b.qs, items, zeros, known) && EndsWith(a.qs + b.qs, b.qs)
    ensures b.r.Ok? ==> FirstPhase(m, nodes, known, items, zeros, AsLeaves, b.qs)
    ensures b.r.Err? ==> !b.r.error.HeaderUncertain?
  {
    StructAttempt(m, nodes, maxWrite, known, items, zeros, a, packed, owners);
    LeafAttempt(m, nodes, maxWrite, known, items, zeros, b);
    KeysOfBoth(a.qs, b.qs, items, zeros, known);
  }

  lemma StructsAreFirst(m: Machine, nodes: Nodes, maxWrite: nat, known: map<string, Verified>, items: seq<Item>, zeros: seq<Item>,
                        packed: Packed, owners: seq<Option<string>>, attempts: Attempts, structs: map<string, Verified>, r: Result<(), OpcError>)
    requires StructsDone(m, nodes, maxWrite, known, items, zeros, packed, attempts, structs, r) && PackedBy(m, known, items, owners, packed)
    ensures FirstOk(items, zeros, known, attempts.Requests(), attempts.Last(), r)
    ensures r.Ok? ==> FirstPhase(m, nodes, known, items, zeros, if attempts.Once? then AsStructs(packed, owners) else AsLeaves, attempts.Last())
  {
    match attempts
    case Once(a) => StructAttempt(m, nodes, maxWrite, known, items, zeros, a, packed, owners);
    case Twice(a, b) => TwiceIsFirst(m, nodes, maxWrite, known, items, zeros, packed, owners, a, b);
  }

  /** A first phase that goes well ends with an acknowledged attempt; none of its writes is for anything else than the task. */
  lemma PhaseIsFirst(m: Machine, nodes: Nodes, maxWrite: nat, structWrite: bool, known: map<string, Verified>, items: seq<Item>, zeros: seq<Item>,
                     p: Phase, structs: map<string, Verified>, r: Result<(), OpcError>)
    requires PhaseDone(m, nodes, maxWrite, structWrite, known, items, zeros, p, structs, r)
    ensures FirstOk(items, zeros, known, p.attempts.Requests(), p.attempts.Last(), r)
    ensures r.Ok? ==> FirstPhase(m, nodes, known, items, zeros, WayOf(p), p.attempts.Last())
  {
    match p.tried
    case Err(_) =>
    case Ok(None) => LeafAttempt(m, nodes, maxWrite, known, items, zeros, p.attempts.only);
    case Ok(Some(packed)) =>
      StructsAreFirst(m, nodes, maxWrite, known, items, zeros, packed, p.owners, p.attempts, structs, r);
  }

  predicate EndsWith(qs: seq<Request>, last: seq<Request>) {
    |last| <= |qs| && qs[|qs| - |last|..] == last
  }

  /** What comes back is checked in order: an answer, one code for every node, each of them good. */
  method CheckAnswer(chunk: seq<Write>, answer: Answer) returns (r: Result<(), OpcError>)
    ensures r.Ok? <==> Acked(Request(chunk, answer))
    ensures r.Err? ==> Reports(Request(chunk, answer), r.error)
  {
    match answer {
      case NoAnswer => return Err(Timeout);
      case ServiceError(timedOut) => return Err(if timedOut then Timeout else Transport);
      case Codes(codes) =>
        if |codes| != |chunk| { return Err(Transport); }
        for i := 0 to |codes|
          invariant forall j | 0 <= j < i :: Good(codes[j])
        {
          if !Good(codes[i]) { return Err(Status(chunk[i].key, codes[i])); }
        }
        return Ok(());
    }
  }

  class CmdWriter {
    const machine: Machine
    const nodes: Nodes
    const maxWrite: nat
    const structWrite: bool
    const counters: HeaderCounters
    var structs: map<string, Verified>
    ghost var log: seq<Request>
    ghost var offline: nat

    constructor (machine: Machine, nodes: Nodes, maxWrite: nat, structWrite: bool, counters: HeaderCounters, structs: map<string, Verified>)
      ensures this.machine == machine && this.nodes == nodes && this.maxWrite == maxWrite && this.structWrite == structWrite
      ensures this.counters == counters && this.structs == structs && log == [] && offline == 0
    {
      this.machine, this.nodes, this.maxWrite, this.structWrite := machine, nodes, maxWrite, structWrite;
      this.counters, this.structs, log, offline := counters, structs, [], 0;
    }

    /** Whatever the server does. */
    method Ask(writes: seq<Write>) returns (answer: Answer)
      modifies this`log
      ensures log == old(log) + [Request(writes, answer)]
    {
      answer := *;
      log := log + [Request(writes, answer)];
    }

    /** A session may be there or not; `offline` counts how often it was not. */
    method Session() returns (online: bool)
      modifies this`offline
      ensures offline == old(offline) + if online then 0 else 1
    {
      online := *;
      if !online { offline := offline + 1; }
    }

    /** Sends the writes in order, as many at a time as the server takes, until one request is not acknowledged. */
    method WriteChunks(writes: seq<Write>) returns (r: Result<(), OpcError>, ghost qs: seq<Request>)
      modifies this`log
      ensures log == old(log) + qs && Carries(qs, writes, r)
      ensures Chunked(qs, writes, maxWrite)
    {
      ghost var before := log;
      var per := if maxWrite == 0 then (if |writes| == 0 then 1 else |writes|) else maxWrite;
      var at := 0;
      qs := [];
      while at < |writes|
        invariant log == before + qs && Progress(qs, writes, at, per)
        decreases |writes| - at
      {
        var end := if at + per <= |writes| then at + per else |writes|;
        ghost var q;
        r, q := SendChunk(writes[at..end]);
        if r.Err? {
          StoppedAt(qs, q, writes, at, end, maxWrite, per, r.error);
          return r, qs + [q];
        }
        NextChunk(qs, q, writes, at, end, per);
        qs := qs + [q];
        at := end;
      }
      AllSent(qs, writes, maxWrite, per);
      return Ok(()), qs;
    }

    method SendChunk(chunk: seq<Write>) returns (r: Result<(), OpcError>, ghost q: Request)
      modifies this`log
      ensures log == old(log) + [q] && q.writes == chunk
      ensures (r.Ok? <==> Acked(q)) && (r.Err? ==> Reports(q, r.error))
    {
      var answer := Ask(chunk);
      q := Request(chunk, answer);
      r := CheckAnswer(chunk, answer);
    }

    /** The struct writes and the writes of the members as one group. Nothing is sent when a member cannot be written. */
    method WriteBatch(items: seq<Item>, extra: seq<Extra>) returns (r: Result<(), OpcError>, ghost a: Attempt)
      modifies this`log, this`offline
      ensures log == old(log) + a.qs && offline == old(offline) + a.Offline()
      ensures Tries(a, items, extra) && a.r == r && AttemptDone(machine, nodes, maxWrite, a)
    {
      a := Attempt(items, extra, true, [], Ok(()));
      if items == [] && extra == [] { return Ok(()), a; }
      var online := Session();
      if !online { return Err(NotReady), a.(online := false, r := Err(NotReady)); }
      var writes := PlanWrites(items, extra);
      if writes.Err? {
        Unplanned(machine, nodes, maxWrite, items, extra, writes.error);
        return Err(writes.error), a.(r := Err(writes.error));
      }
      ghost var qs;
      r, qs := WriteChunks(writes.value);
      SentAttempt(machine, nodes, maxWrite, items, extra, writes.value, qs, r);
      a := a.(qs := qs, r := r);
    }

    method PlanWrites(items: seq<Item>, extra: seq<Extra>) returns (r: Result<seq<Write>, OpcError>)
      ensures r == PlanAll(machine, nodes, items, extra)
    {
      var writes := StructWrites(extra);
      ghost var leaves: seq<Write> := [];
      for i := 0 to |items|
        invariant Plan(machine, nodes, items[..i]) == Ok(leaves) && writes == StructWrites(extra) + leaves
      {
        assert items[..i + 1] == items[..i] + [items[i]];
        PlanSnoc(machine, nodes, items[..i], items[i]);
        var w := WriteFor(machine, nodes, items[i]);
        if w.Err? {
          PlanFails(machine, nodes, items, i + 1);
          return Err(w.error);
        }
        writes := writes + [w.value];
        leaves := leaves + [w.value];
      }
      assert items[..|items|] == items;
      return Ok(writes);
    }

    /** Phase one: structs packed where possible; when the server refuses a struct, all over again with leaf writes. */
    method WriteFirst(items: seq<Item>, zeros: seq<Item>, ghost known: map<string, Verified>) returns (r: Result<(), OpcError>, ghost p: Phase)
      requires known == structs
      modifies this`log, this`offline, this`structs
      ensures log == old(log) + p.attempts.Requests() && offline == old(offline) + p.attempts.Offlines()
      ensures PhaseDone(machine, nodes, maxWrite, structWrite, known, items, zeros, p, structs, r)
    {
      var packed: Result<Option<Packed>, EncodeError> := Ok(None);
      p := Phase(Ok(None), [], Never);
      if structWrite {
        ghost var owners;
        packed, owners := PackStructs(machine, structs, items);
        p := Phase(packed, owners, Never);
      }
      match packed {
        case Err(_) => return Err(Config), p;
        case Ok(None) =>
          ghost var a;
          r, a := WriteBatch(items + zeros, []);
          p := p.(attempts := Once(a));
        case Ok(Some(some)) =>
          ghost var attempts;
          r, attempts := WriteStructs(items, zeros, some, known);
          p := p.(attempts := attempts);
      }
    }

    /** With some structs packed. */
    method WriteStructs(items: seq<Item>, zeros: seq<Item>, packed: Packed, ghost known: map<string, Verified>)
      returns (r: Result<(), OpcError>, ghost attempts: Attempts)
      requires known == structs
      modifies this`log, this`offline, this`structs
      ensures log == old(log) + attempts.Requests() && offline == old(offline) + attempts.Offlines()
      ensures StructsDone(machine, nodes, maxWrite, known, items, zeros, packed, attempts, structs, r)
    {
      ghost var a;
      ghost var before := log;
      r, a := WriteBatch(packed.rest + zeros, packed.extra);
      if !(r.Err? && r.error.Status? && HasExtra(packed.extra, r.error.key)) { return r, Once(a); }
      ghost var b;
      r, b := WriteAgain(items, zeros);
      ConcatAssoc(before, a.qs, b.qs);
      return r, Twice(a, b);
    }

    /** The server refused a struct: no structs in this session any more, all members as leaves. */
    method WriteAgain(items: seq<Item>, zeros: seq<Item>) returns (r: Result<(), OpcError>, ghost a: Attempt)
      modifies this`log, this`offline, this`structs
      ensures log == old(log) + a.qs && offline == old(offline) + a.Offline() && structs == map[]
      ensures Tries(a, items + zeros, []) && a.r == r && AttemptDone(machine, nodes, maxWrite, a)
    {
      structs := map[];
      r, a := WriteBatch(items + zeros, []);
    }

    /** Phase two: the header with fresh numbers. */
    method WriteHeader(cmd: nat, src: nat, dst: nat, protocol: nat) returns (r: Result<Header, OpcError>, ghost a: Attempt, ghost h: Header)
      requires counters.Valid()
      modifies this`log, this`offline, counters
      ensures log == old(log) + a.qs && offline == old(offline) + a.Offline() && counters.Valid()
      ensures h == Header(protocol, Next(old(counters.cmdId), MAX_CMD_ID), cmd, src, dst, Next(old(counters.seqNo), MAX_SEQ))
      ensures counters.cmdId == h.cmdId && counters.seqNo == h.seqNo
      ensures HeaderDone(machine, nodes, maxWrite, h, a, r)
    {
      var id := counters.NextCmdId();
      var s := counters.NextSeq();
      var header := Header(protocol, id, cmd, src, dst, s);
      h := header;
      var sent;
      sent, a := WriteBatch(HeaderItems(header), []);
      match sent
      case Ok(_) => return Ok(header), a, h;
      case Err(e) => return Err(if e.Timeout? || e.Transport? then HeaderUncertain(header) else e), a, h;
    }

    /** Phase one of `write_task`, from the members as they were given. */
    method WriteMembers(members: seq<Member>, ghost known: map<string, Verified>)
      returns (r: Result<(), OpcError>, ghost items: seq<Item>, ghost zeros: seq<Item>, ghost p: Phase)
      requires known == structs
      modifies this`log, this`offline, this`structs
      ensures log == old(log) + p.attempts.Requests() && offline == old(offline) + p.attempts.Offlines()
      ensures MembersDone(machine, nodes, maxWrite, structWrite, known, members, items, zeros, p, structs, r)
    {
      items, zeros, p := [], [], Phase(Ok(None), [], Never);
      var norm := Normalize(members);
      if norm.Err? { return Err(Config), items, zeros, p; }
      var more := Zeroes(nodes, norm.value);
      items, zeros := norm.value, more;
      r, p := WriteFirst(norm.value, more, known);
    }

    /** `write_task`: the header goes out exactly when the first phase ended well, and the call ends as the last thing it did. */
    method WriteTask(members: seq<Member>, cmd: nat, src: nat, dst: nat, protocol: nat) returns (r: Result<Header, OpcError>, ghost t: Submission)
      requires counters.Valid()
      modifies this`log, this`offline, this`structs, counters
      ensures counters.Valid() && log == old(log) + t.First() + t.Second()
      ensures TaskDone(machine, nodes, maxWrite, structWrite, old(structs), members, t, structs, r)
      ensures t.second.Some? ==>
        t.header == Header(protocol, Next(old(counters.cmdId), MAX_CMD_ID), cmd, src, dst, Next(old(counters.seqNo), MAX_SEQ))
      ensures t.second.None? ==> counters.cmdId == old(counters.cmdId) && counters.seqNo == old(counters.seqNo)
    {
      var done;
      ghost var items, zeros, p;
      done, items, zeros, p := WriteMembers(members, structs);
      t := Submission(items, zeros, p, done, None, Header(0, 0, 0, 0, 0, 0));
      if done.Err? { return Err(done.error), t; }
      ghost var a, h;
      r, a, h := WriteHeader(cmd, src, dst, protocol);
      t := t.(second := Some(a), header := h);
    }
  }

  /** A call of `write_task`: the members and zeros of the first phase, how it went and ended, and the header when it was sent. */
  datatype Submission = Submission(items: seq<Item>, zeros: seq<Item>, phase: Phase, done: Result<(), OpcError>, second: Option<Attempt>, header: Header)
  {
    function First(): seq<Request> {
      phase.attempts.Requests()
    }

    function Second(): seq<Request> {
      if second.Some? then second.value.qs else []
    }

    function Acked(): seq<Request> {
      phase.attempts.Last()
    }
  }

  /** Some path is none: nothing is sent. Else the first phase goes its way with the members and the zeros. */
  ghost predicate MembersDone(m: Machine, nodes: Nodes, maxWrite: nat, structWrite: bool, known: map<string, Verified>, members: seq<Member>,
                              items: seq<Item>, zeros: seq<Item>, p: Phase, structs: map<string, Verified>, r: Result<(), OpcError>) {
    if exists i :: 0 <= i < |members| && NormalizePath(members[i].path).Err?
    then p.attempts == Never && r == Err(Config) && structs == known
    else Normalized(members, items) && ZeroesOk(nodes, items, zeros) && PhaseDone(m, nodes, maxWrite, structWrite, known, items, zeros, p, structs, r)
  }

  /** The header is one group of writes; `HeaderUncertain` when its outcome is unknown. */
  ghost predicate HeaderDone(m: Machine, nodes: Nodes, maxWrite: nat, h: Header, a: Attempt, r: Result<Header, OpcError>) {
    && Tries(a, HeaderItems(h), []) && AttemptDone(m, nodes, maxWrite, a)
    && r == match a.r
            case Ok(_) => Ok(h)
            case Err(e) => Err(if e.Timeout? || e.Transport? then HeaderUncertain(h) else e)
  }

  ghost predicate TaskDone(m: Machine, nodes: Nodes, maxWrite: nat, structWrite: bool, known: map<string, Verified>, members: seq<Member>,
                           t: Submission, structs: map<string, Verified>, r: Result<Header, OpcError>) {
    && MembersDone(m, nodes, maxWrite, structWrite, known, members, t.items, t.zeros, t.phase, structs, t.done)
    && if t.done.Err? then t.second.None? && r == Err(t.done.error)
       else t.second.Some? && HeaderDone(m, nodes, maxWrite, t.header, t.second.value, r)
  }
}
