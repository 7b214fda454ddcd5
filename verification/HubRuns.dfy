/** Whole runs of the hub: any interleaving of its calls, of the second critical section that answers the waiters, and of
    time passing. `World` is the hub together with what an observer has seen so far. */
module HubRuns {
  import opened Wrappers
  import opened HubSpec

  /** What became of a command id. */
  datatype Phase = Waiting | InFlight | Over(state: CmdState) | NeverAccepted

  datatype Fate = Fate(plc: string, phase: Phase)

  /** `ledger` is kept by the observer: every id ever given out and its fate. `recorded` are all commands that ended, in
      order; `handed` all ids given to a connection; `undelivered` the batches whose second critical section has not run
      yet; `registered` the ids a caller waits or waited for; `answers` what the waiters were sent. */
  datatype World = World(
    hub: HubState, clock: nat, ledger: map<nat, Fate>, recorded: seq<CmdView>, handed: seq<nat>,
    undelivered: seq<seq<CmdView>>, registered: set<nat>, answers: seq<CmdView>)

  const START := World(EMPTY, 0, map[], [], [], [], {}, [])

  datatype Op =
    | OpEnsure(name: string, mode: Mode, framing: Option<Framing>)
    | OpAttach(name: string, mode: Mode, kind: Framing, tx: Option<nat>)
    | OpDetach(name: string, connId: nat, reason: Option<string>)
    | OpTouch(name: string)
    | OpReceived(name: string)
    | OpSubmit(name: string, msg: Message, queue: bool, wait: bool, accepts: bool)
    | OpTake(name: string)
    | OpCommandSent(name: string, id: nat, seqNo: nat)
    | OpFailed(name: string, id: nat, err: string, http: Option<nat>)
    | OpPop(name: string)
    | OpReply(name: string, msg: Message, replyTo: Option<nat>, http: Option<nat>)
    | OpCancel(name: string, id: nat)
    | OpTick(order: seq<string>)
    | OpDeliver(batch: nat)
    | OpAdvance(ticks: nat)

  // ---------------------------------------------------------------- the step function

  function Call(cfg: Config, h: HubState, op: Op, now: nat): Outcome
    requires !op.OpDeliver? && !op.OpAdvance?
  {
    match op
    case OpEnsure(name, mode, framing) => EnsurePlc(h, name, mode, framing)
    case OpAttach(name, mode, kind, tx) => Attach(h, name, mode, kind, tx, now)
    case OpDetach(name, connId, reason) => Detach(cfg, h, name, connId, reason, now)
    case OpTouch(name) => TouchHttp(h, name, now)
    case OpReceived(name) => Received(h, name, now)
    case OpSubmit(name, msg, queue, wait, accepts) => Submit(h, name, msg, queue, wait, accepts, now).1
    case OpTake(name) => TakeQueued(h, name, now).1
    case OpCommandSent(name, id, seqNo) => CommandSent(h, name, id, seqNo, now)
    case OpFailed(name, id, err, http) => CommandFailed(cfg, h, name, id, err, http, now)
    case OpPop(name) => PopHttp(h, name, now).1
    case OpReply(name, msg, replyTo, http) => Reply(cfg, h, name, msg, replyTo, http, now)
    case OpCancel(name, id) => Cancel(cfg, h, name, id, now)
    case OpTick(order) => Tick(cfg, h, order, now)
  }

  predicate SentIn(h: HubState, plc: string, id: nat) {
    plc in h.plcs && exists k :: 0 <= k < |h.plcs[plc].cmds| && h.plcs[plc].cmds[k].view.id == id && h.plcs[plc].cmds[k].view.state == Sent
  }

  /** What the observer notes about an id it already knew. */
  function PhaseAfter(f: Fate, id: nat, out: Outcome): Phase {
    if exists v | v in out.finished :: v.id == id then
      Over(if out.finished == [] then Done else out.finished[0].state)
    else if f.phase == Waiting && SentIn(out.hub, f.plc, id) then InFlight
    else f.phase
  }

  function LedgerAfter(ledger: map<nat, Fate>, out: Outcome): map<nat, Fate> {
    map id | id in ledger :: Fate(ledger[id].plc, PhaseAfter(ledger[id], id, out))
  }

  /** A new id is either in a queue (or already sent) or was refused. */
  function Admitted(ledger: map<nat, Fate>, name: string, r: Result<CmdView, HubError>, out: Outcome): map<nat, Fate> {
    match r
    case Ok(v) => ledger[v.id := Fate(name, if v.state == Sent then InFlight else Waiting)]
    case Err(NotConnected) => ledger[out.hub.nextCmdId := Fate(name, NeverAccepted)]
    case Err(NotFound) => ledger
  }

  function Apply(cfg: Config, w: World, op: Op): World {
    match op
    case OpAdvance(ticks) => w.(clock := w.clock + ticks)
    case OpDeliver(b) =>
      if b >= |w.undelivered| then w
      else
        var (h, sent) := Deliver(w.hub, w.undelivered[b]);
        w.(hub := h, undelivered := w.undelivered[..b] + w.undelivered[b + 1..], answers := w.answers + sent)
    case OpSubmit(name, msg, queue, wait, accepts) =>
      var (r, out) := Submit(w.hub, name, msg, queue, wait, accepts, w.clock);
      w.(hub := out.hub, ledger := Admitted(w.ledger, name, r, out), handed := w.handed + out.handed,
         registered := if r.Ok? && wait then w.registered + {r.value.id} else w.registered)
    case _ =>
      var out := Call(cfg, w.hub, op, w.clock);
      w.(hub := out.hub, ledger := LedgerAfter(w.ledger, out), recorded := w.recorded + out.finished,
         handed := w.handed + out.handed,
         undelivered := if out.finished == [] then w.undelivered else w.undelivered + [out.finished])
  }

  function Run(cfg: Config, w: World, ops: seq<Op>): World {
    if ops == [] then w else Apply(cfg, Run(cfg, w, ops[..|ops| - 1]), ops[|ops| - 1])
  }

  lemma RunSnoc(cfg: Config, w: World, ops: seq<Op>, op: Op)
    ensures Run(cfg, w, ops + [op]) == Apply(cfg, Run(cfg, w, ops), op)
  {
    assert (ops + [op])[..|ops|] == ops;
  }

  // ---------------------------------------------------------------- the invariant

  predicate Increasing(cmds: seq<Cmd>) {
    forall j, k | 0 <= j < k < |cmds| :: cmds[j].view.id < cmds[k].view.id
  }

  /** A command in a queue: it belongs to the PLC, its fate is known, nothing is noted on it yet. */
  predicate CmdOk(name: string, c: Cmd, ledger: map<nat, Fate>, clock: nat) {
    && c.view.plc == name
    && c.view.id in ledger
    && ledger[c.view.id] == Fate(name, if c.view.state == Queued then Waiting else InFlight)
    && (c.view.state == Queued || c.view.state == Sent)
    && c.view.created == c.createdAt <= clock
    && c.view.finished.None? && c.view.reply.None? && c.view.code.None? && c.view.httpStatus.None? && c.view.error.None?
  }

  predicate PlcOk(name: string, st: Plc, ledger: map<nat, Fate>, clock: nat) {
    && st.name == name
    && Increasing(st.cmds)
    && forall k | 0 <= k < |st.cmds| :: CmdOk(name, st.cmds[k], ledger, clock)
  }

  predicate HasId(cmds: seq<Cmd>, id: nat) {
    exists k :: 0 <= k < |cmds| && cmds[k].view.id == id
  }

  predicate LivePhase(p: Phase) {
    p == Waiting || p == InFlight
  }

  /** The queues and the ledger tell the same story. */
  ghost predicate QueuesOk(plcs: map<string, Plc>, next: nat, ledger: map<nat, Fate>, clock: nat) {
    && (forall n | n in plcs :: PlcOk(n, plcs[n], ledger, clock))
    && (forall id: nat :: id in ledger <==> 1 <= id <= next)
    && (forall id | id in ledger && LivePhase(ledger[id].phase) :: ledger[id].plc in plcs && HasId(plcs[ledger[id].plc].cmds, id))
  }

  // ---------------------------------------------------------------- picking and removing keeps the order

  lemma {:induction false} KeepMembers(cmds: seq<Cmd>, p: Pick)
    ensures forall c :: c in Keep(cmds, p) <==> c in cmds && !Picked(p, c)
  {
    if cmds != [] {
      KeepMembers(cmds[1..], p);
      assert forall c :: c in cmds <==> c == cmds[0] || c in cmds[1..];
    }
  }

  lemma {:induction false} KeepOf(cmds: seq<Cmd>, p: Pick)
    ensures forall c :: c in Keep(cmds, p) <==> c in cmds && !Picked(p, c)
    ensures Increasing(cmds) ==> Increasing(Keep(cmds, p))
  {
    KeepMembers(cmds, p);
    if cmds != [] && Increasing(cmds) {
      var rest := Keep(cmds[1..], p);
      KeepOf(cmds[1..], p);
      forall k | 0 <= k < |rest| ensures cmds[0].view.id < rest[k].view.id {
        assert rest[k] in rest;
        var j :| 0 <= j < |cmds[1..]| && cmds[1..][j] == rest[k];
        assert cmds[j + 1] == rest[k];
      }
    }
  }

  lemma {:induction false} TakeMembers(cmds: seq<Cmd>, p: Pick)
    ensures forall c :: c in Take(cmds, p) <==> c in cmds && Picked(p, c)
  {
    if cmds != [] {
      TakeMembers(cmds[1..], p);
      assert forall c :: c in cmds <==> c == cmds[0] || c in cmds[1..];
    }
  }

  lemma {:induction false} TakeOf(cmds: seq<Cmd>, p: Pick)
    ensures forall c :: c in Take(cmds, p) <==> c in cmds && Picked(p, c)
    ensures Increasing(cmds) ==> Increasing(Take(cmds, p))
  {
    TakeMembers(cmds, p);
    if cmds != [] && Increasing(cmds) {
      var rest := Take(cmds[1..], p);
      TakeOf(cmds[1..], p);
      forall k | 0 <= k < |rest| ensures cmds[0].view.id < rest[k].view.id {
        assert rest[k] in rest;
        var j :| 0 <= j < |cmds[1..]| && cmds[1..][j] == rest[k];
        assert cmds[j + 1] == rest[k];
      }
    }
  }

  // ---------------------------------------------------------------- what every call guarantees about its outcome

  /** A command that the ledger can account for once the call has been observed. */
  predicate FitsCmd(name: string, c: Cmd, ledger: map<nat, Fate>, clock: nat) {
    && c.view.plc == name
    && c.view.id in ledger && ledger[c.view.id].plc == name
    && LivePhase(ledger[c.view.id].phase)
    && (c.view.state == Queued || c.view.state == Sent)
    && (c.view.state == Queued ==> ledger[c.view.id].phase == Waiting)
    && c.view.created == c.createdAt <= clock
    && c.view.finished.None? && c.view.reply.None? && c.view.code.None? && c.view.httpStatus.None? && c.view.error.None?
  }

  predicate Fits(name: string, st: Plc, ledger: map<nat, Fate>, clock: nat) {
    && st.name == name
    && Increasing(st.cmds)
    && forall k | 0 <= k < |st.cmds| :: FitsCmd(name, st.cmds[k], ledger, clock)
  }

  predicate NotFinished(cmds: seq<Cmd>, finished: seq<CmdView>) {
    forall k, j | 0 <= k < |cmds| && 0 <= j < |finished| :: cmds[k].view.id != finished[j].id
  }

  predicate Finishes(finished: seq<CmdView>, id: nat) {
    exists j :: 0 <= j < |finished| && finished[j].id == id
  }

  /** Every command is still in the queue or among the finished ones. */
  predicate Accounted(cmds: seq<Cmd>, cmds': seq<Cmd>, finished: seq<CmdView>) {
    forall k | 0 <= k < |cmds| :: HasId(cmds', cmds[k].view.id) || Finishes(finished, cmds[k].view.id)
  }

  predicate FinishedOk(finished: seq<CmdView>, ledger: map<nat, Fate>) {
    && (forall i, j | 0 <= i < j < |finished| :: finished[i].id != finished[j].id)
    && forall j | 0 <= j < |finished| ::
         && finished[j].id in ledger && ledger[finished[j].id].plc == finished[j].plc && LivePhase(ledger[finished[j].id].phase)
         && finished[j].state == finished[0].state && Terminal(finished[j].state)
  }

  function OfPlc(views: seq<CmdView>, name: string): seq<CmdView> {
    if views == [] then []
    else OfPlc(views[..|views| - 1], name) + if views[|views| - 1].plc == name then [views[|views| - 1]] else []
  }

  function HistoryOf(plcs: map<string, Plc>, name: string): seq<CmdView> {
    if name in plcs then plcs[name].history else []
  }

  predicate HandedOk(h: HubState, handed: seq<nat>, ledger: map<nat, Fate>) {
    && (forall i, j | 0 <= i < j < |handed| :: handed[i] != handed[j])
    && forall i | 0 <= i < |handed| ::
         handed[i] in ledger && ledger[handed[i]].phase == Waiting && SentIn(h, ledger[handed[i]].plc, handed[i])
  }

  /** No command of the hub got lost. */
  predicate NoneLost(plcs: map<string, Plc>, plcs': map<string, Plc>, finished: seq<CmdView>) {
    forall n | n in plcs :: n in plcs' && Accounted(plcs[n].cmds, plcs'[n].cmds, finished)
  }

  predicate AllFit(plcs': map<string, Plc>, finished: seq<CmdView>, ledger: map<nat, Fate>, clock: nat) {
    forall n | n in plcs' :: Fits(n, plcs'[n], ledger, clock) && NotFinished(plcs'[n].cmds, finished)
  }

  predicate HistoriesOk(cap: nat, plcs: map<string, Plc>, plcs': map<string, Plc>, finished: seq<CmdView>) {
    forall n | n in plcs' :: plcs'[n].history == Record(HistoryOf(plcs, n), OfPlc(finished, n), cap)
  }

  predicate Good(cap: nat, h: HubState, out: Outcome, ledger: map<nat, Fate>, clock: nat) {
    && out.hub.nextCmdId == h.nextCmdId && out.hub.waiters == h.waiters
    && NoneLost(h.plcs, out.hub.plcs, out.finished)
    && AllFit(out.hub.plcs, out.finished, ledger, clock)
    && HistoriesOk(cap, h.plcs, out.hub.plcs, out.finished)
    && (forall j | 0 <= j < |out.finished| :: out.finished[j].plc in h.plcs)
    && FinishedOk(out.finished, ledger)
    && HandedOk(out.hub, out.handed, ledger)
  }

  lemma {:induction false} OfPlcConcat(a: seq<CmdView>, b: seq<CmdView>, name: string)
    ensures OfPlc(a + b, name) == OfPlc(a, name) + OfPlc(b, name)
  {
    if b == [] {
      assert a + b == a;
    } else {
      OfPlcConcat(a, b[..|b| - 1], name);
      assert (a + b)[..|a + b| - 1] == a + b[..|b| - 1];
    }
  }

  lemma {:induction false} OfPlcAll(views: seq<CmdView>, name: string, other: string)
    requires forall k | 0 <= k < |views| :: views[k].plc == name
    ensures OfPlc(views, name) == views
    ensures other != name ==> OfPlc(views, other) == []
  {
    if views != [] { OfPlcAll(views[..|views| - 1], name, other); }
  }

  lemma LastNSuffix<T>(s: seq<T>, cut: nat, n: nat)
    requires cut + n <= |s|
    ensures LastN(s[cut..], n) == LastN(s, n)
  {
    if cut + n < |s| { assert s[cut..][|s| - cut - n..] == s[|s| - n..]; }
  }

  lemma LastNConcat<T>(a: seq<T>, b: seq<T>, n: nat)
    ensures LastN(LastN(a, n) + b, n) == LastN(a + b, n)
  {
    if |a| > n {
      assert LastN(a, n) + b == (a + b)[|a| - n..];
      LastNSuffix(a + b, |a| - n, n);
    }
  }

  lemma RecordTwice(history: seq<CmdView>, a: seq<CmdView>, b: seq<CmdView>, cap: nat)
    ensures Record(Record(history, a, cap), b, cap) == Record(history, a + b, cap)
  {
    if b == [] {
      assert a + b == a;
    } else if a == [] {
      assert a + b == b;
    } else {
      LastNConcat(history + a, b, cap);
      assert history + a + b == history + (a + b);
    }
  }

  lemma CmdsFit(name: string, st: Plc, ledger: map<nat, Fate>, clock: nat)
    requires PlcOk(name, st, ledger, clock)
    ensures Fits(name, st, ledger, clock)
  {
    forall k | 0 <= k < |st.cmds| ensures FitsCmd(name, st.cmds[k], ledger, clock) {
      assert CmdOk(name, st.cmds[k], ledger, clock);
    }
  }

  /** Nothing happened, or only something about the link. */
  lemma GoodSame(cap: nat, h: HubState, out: Outcome, name: string, st: Plc, ledger: map<nat, Fate>, clock: nat)
    requires QueuesOk(h.plcs, h.nextCmdId, ledger, clock)
    requires out.hub.plcs == h.plcs[name := st] && out.hub.nextCmdId == h.nextCmdId && out.hub.waiters == h.waiters
    requires out.finished == [] && out.handed == []
    requires st.name == name && st.cmds == PlcOr(h, name, Active).cmds && st.history == HistoryOf(h.plcs, name)
    ensures Good(cap, h, out, ledger, clock)
  {
    if name in h.plcs { assert PlcOk(name, h.plcs[name], ledger, clock); }
    forall n | n in out.hub.plcs ensures Fits(n, out.hub.plcs[n], ledger, clock) {
      if n != name { CmdsFit(n, h.plcs[n], ledger, clock); }
      if n == name && name in h.plcs { CmdsFit(n, h.plcs[n], ledger, clock); }
    }
  }

  lemma GoodQuiet(cap: nat, h: HubState, ledger: map<nat, Fate>, clock: nat)
    requires QueuesOk(h.plcs, h.nextCmdId, ledger, clock)
    ensures Good(cap, h, Quiet(h), ledger, clock)
  {
    forall n | n in h.plcs ensures Fits(n, h.plcs[n], ledger, clock) { CmdsFit(n, h.plcs[n], ledger, clock); }
  }

  lemma StillAccounted(orig: seq<Cmd>, mid: seq<Cmd>, last: seq<Cmd>, finished: seq<CmdView>, more: seq<CmdView>)
    requires Accounted(orig, mid, finished) && Accounted(mid, last, more)
    ensures Accounted(orig, last, finished + more)
  {
    forall k | 0 <= k < |orig| ensures HasId(last, orig[k].view.id) || Finishes(finished + more, orig[k].view.id) {
      var id := orig[k].view.id;
      if HasId(mid, id) {
        var m :| 0 <= m < |mid| && mid[m].view.id == id;
        if Finishes(more, id) {
          var j :| 0 <= j < |more| && more[j].id == id;
          assert (finished + more)[|finished| + j].id == id;
        }
      } else {
        var j :| 0 <= j < |finished| && finished[j].id == id;
        assert (finished + more)[j].id == id;
      }
    }
  }

  lemma EndedAccounted(cmds: seq<Cmd>, p: Pick, e: Ending, now: nat)
    ensures Accounted(cmds, Keep(cmds, p), EndedAll(Take(cmds, p), e, now))
  {
    KeepOf(cmds, p);
    TakeOf(cmds, p);
    var more := EndedAll(Take(cmds, p), e, now);
    forall k | 0 <= k < |cmds| ensures HasId(Keep(cmds, p), cmds[k].view.id) || Finishes(more, cmds[k].view.id) {
      if Picked(p, cmds[k]) {
        var j :| 0 <= j < |Take(cmds, p)| && Take(cmds, p)[j] == cmds[k];
        assert more[j].id == cmds[k].view.id;
      } else {
        var j :| 0 <= j < |Keep(cmds, p)| && Keep(cmds, p)[j] == cmds[k];
      }
    }
  }

  lemma KeepFits(name: string, st: Plc, p: Pick, st': Plc, ledger: map<nat, Fate>, clock: nat)
    requires Fits(name, st, ledger, clock) && st'.name == name && st'.cmds == Keep(st.cmds, p)
    ensures Fits(name, st', ledger, clock)
  {
    KeepOf(st.cmds, p);
    forall k | 0 <= k < |st'.cmds| ensures FitsCmd(name, st'.cmds[k], ledger, clock) {
      assert st'.cmds[k] in Keep(st.cmds, p);
      var j :| 0 <= j < |st.cmds| && st.cmds[j] == st'.cmds[k];
    }
  }

  lemma PickedDiffer(cmds: seq<Cmd>, p: Pick, i: nat, k: nat)
    requires Increasing(cmds) && i < |cmds| && k < |cmds| && !Picked(p, cmds[i]) && Picked(p, cmds[k])
    ensures cmds[i].view.id != cmds[k].view.id
  {
    assert i != k;
  }

  lemma KeptNotTaken(cmds: seq<Cmd>, p: Pick, finished: seq<CmdView>, e: Ending, now: nat)
    requires Increasing(cmds) && NotFinished(cmds, finished)
    ensures NotFinished(Keep(cmds, p), finished + EndedAll(Take(cmds, p), e, now))
  {
    var kept, taken, more := Keep(cmds, p), Take(cmds, p), EndedAll(Take(cmds, p), e, now);
    KeepOf(cmds, p);
    TakeOf(cmds, p);
    forall k, j | 0 <= k < |kept| && 0 <= j < |finished + more| ensures kept[k].view.id != (finished + more)[j].id {
      assert kept[k] in kept;
      var i :| 0 <= i < |cmds| && cmds[i] == kept[k];
      if j >= |finished| {
        assert taken[j - |finished|] in taken;
        var m :| 0 <= m < |cmds| && cmds[m] == taken[j - |finished|];
        PickedDiffer(cmds, p, i, m);
      }
    }
  }

  lemma TakenFit(name: string, st: Plc, p: Pick, ledger: map<nat, Fate>, clock: nat)
    requires Fits(name, st, ledger, clock)
    ensures forall k | 0 <= k < |Take(st.cmds, p)| :: FitsCmd(name, Take(st.cmds, p)[k], ledger, clock)
  {
    var taken := Take(st.cmds, p);
    TakeOf(st.cmds, p);
    forall k | 0 <= k < |taken| ensures FitsCmd(name, taken[k], ledger, clock) {
      assert taken[k] in taken;
      var i :| 0 <= i < |st.cmds| && st.cmds[i] == taken[k];
    }
  }

  lemma TakenDistinct(cmds: seq<Cmd>, p: Pick, finished: seq<CmdView>, e: Ending, now: nat)
    requires Increasing(cmds) && NotFinished(cmds, finished)
    requires forall i, j | 0 <= i < j < |finished| :: finished[i].id != finished[j].id
    ensures var all := finished + EndedAll(Take(cmds, p), e, now); forall i, j | 0 <= i < j < |all| :: all[i].id != all[j].id
  {
    var taken := Take(cmds, p);
    var all := finished + EndedAll(taken, e, now);
    TakeOf(cmds, p);
    forall i, j | 0 <= i < j < |all| ensures all[i].id != all[j].id {
      if i < |finished| <= j {
        assert taken[j - |finished|] in taken;
        var k :| 0 <= k < |cmds| && cmds[k] == taken[j - |finished|];
        assert cmds[k].view.id != finished[i].id;
      } else if |finished| <= i {
        assert taken[i - |finished|].view.id < taken[j - |finished|].view.id;
      }
    }
  }

  lemma TakenFinishedOk(name: string, st: Plc, p: Pick, finished: seq<CmdView>, e: Ending, now: nat, ledger: map<nat, Fate>, clock: nat)
    requires Fits(name, st, ledger, clock) && NotFinished(st.cmds, finished) && FinishedOk(finished, ledger) && Terminal(e.state)
    requires finished != [] ==> finished[0].state == e.state
    ensures FinishedOk(finished + EndedAll(Take(st.cmds, p), e, now), ledger)
    ensures forall k | 0 <= k < |Take(st.cmds, p)| ::
      var v := EndedAll(Take(st.cmds, p), e, now)[k]; v.plc == name && v.id in ledger && ledger[v.id].plc == name
  {
    TakenFit(name, st, p, ledger, clock);
    TakenDistinct(st.cmds, p, finished, e, now);
  }

  lemma OthersNotFinished(n: string, st: Plc, name: string, more: seq<CmdView>, finished: seq<CmdView>, ledger: map<nat, Fate>, clock: nat)
    requires Fits(n, st, ledger, clock) && n != name && NotFinished(st.cmds, finished)
    requires forall j | 0 <= j < |more| :: more[j].id in ledger && ledger[more[j].id].plc == name
    ensures NotFinished(st.cmds, finished + more)
  {
    forall k, j | 0 <= k < |st.cmds| && 0 <= j < |finished + more| ensures st.cmds[k].view.id != (finished + more)[j].id {
      assert FitsCmd(n, st.cmds[k], ledger, clock);
    }
  }

  lemma OthersAccounted(cmds: seq<Cmd>, finished: seq<CmdView>)
    ensures Accounted(cmds, cmds, finished)
  {
    forall k | 0 <= k < |cmds| ensures HasId(cmds, cmds[k].view.id) {}
  }

  lemma EndHistories(cap: nat, plcs: map<string, Plc>, out: Outcome, out': Outcome, name: string, more: seq<CmdView>)
    requires HistoriesOk(cap, plcs, out.hub.plcs, out.finished) && name in out.hub.plcs
    requires out'.hub.plcs.Keys == out.hub.plcs.Keys && forall n | n in out.hub.plcs && n != name :: out'.hub.plcs[n] == out.hub.plcs[n]
    requires out'.hub.plcs[name].history == Record(out.hub.plcs[name].history, more, cap)
    requires out'.finished == out.finished + more && forall k | 0 <= k < |more| :: more[k].plc == name
    ensures HistoriesOk(cap, plcs, out'.hub.plcs, out'.finished)
  {
    forall n | n in out'.hub.plcs
      ensures out'.hub.plcs[n].history == Record(HistoryOf(plcs, n), OfPlc(out'.finished, n), cap)
    {
      OfPlcConcat(out.finished, more, n);
      OfPlcAll(more, name, n);
      RecordTwice(HistoryOf(plcs, n), OfPlc(out.finished, n), OfPlc(more, n), cap);
      assert OfPlc(out.finished, n) + [] == OfPlc(out.finished, n);
    }
  }

  /** `out'` extends `out` by ending the commands `p` picks in PLC `name`. */
  predicate Extends(cap: nat, out: Outcome, out': Outcome, name: string, p: Pick, more: seq<CmdView>) {
    && name in out.hub.plcs
    && out'.hub.plcs.Keys == out.hub.plcs.Keys
    && (forall n | n in out.hub.plcs && n != name :: out'.hub.plcs[n] == out.hub.plcs[n])
    && out'.hub.plcs[name].name == name
    && out'.hub.plcs[name].cmds == Keep(out.hub.plcs[name].cmds, p)
    && out'.hub.plcs[name].history == Record(out.hub.plcs[name].history, more, cap)
    && out'.hub.nextCmdId == out.hub.nextCmdId && out'.hub.waiters == out.hub.waiters
    && out'.finished == out.finished + more
    && out.handed == [] && out'.handed == []
  }

  lemma ExtendedFits(cap: nat, out: Outcome, out': Outcome, name: string, p: Pick, e: Ending, now: nat, ledger: map<nat, Fate>, clock: nat)
    requires AllFit(out.hub.plcs, out.finished, ledger, clock)
    requires name in out.hub.plcs && Extends(cap, out, out', name, p, EndedAll(Take(out.hub.plcs[name].cmds, p), e, now))
    ensures AllFit(out'.hub.plcs, out'.finished, ledger, clock)
  {
    var st := out.hub.plcs[name];
    var more := EndedAll(Take(st.cmds, p), e, now);
    TakenFit(name, st, p, ledger, clock);
    forall n | n in out'.hub.plcs
      ensures Fits(n, out'.hub.plcs[n], ledger, clock) && NotFinished(out'.hub.plcs[n].cmds, out'.finished)
    {
      if n == name {
        KeptNotTaken(st.cmds, p, out.finished, e, now);
        KeepFits(name, st, p, out'.hub.plcs[name], ledger, clock);
      } else {
        OthersNotFinished(n, out.hub.plcs[n], name, more, out.finished, ledger, clock);
      }
    }
  }

  lemma ExtendedLosesNone(cap: nat, plcs: map<string, Plc>, out: Outcome, out': Outcome, name: string, p: Pick, e: Ending, now: nat)
    requires NoneLost(plcs, out.hub.plcs, out.finished)
    requires name in out.hub.plcs && Extends(cap, out, out', name, p, EndedAll(Take(out.hub.plcs[name].cmds, p), e, now))
    ensures NoneLost(plcs, out'.hub.plcs, out'.finished)
  {
    var more := EndedAll(Take(out.hub.plcs[name].cmds, p), e, now);
    forall n | n in plcs ensures Accounted(plcs[n].cmds, out'.hub.plcs[n].cmds, out'.finished) {
      if n == name { EndedAccounted(out.hub.plcs[n].cmds, p, e, now); } else { OthersAccounted(out.hub.plcs[n].cmds, more); }
      StillAccounted(plcs[n].cmds, out.hub.plcs[n].cmds, out'.hub.plcs[n].cmds, out.finished, more);
    }
  }

  /** After a good outcome, ending some commands of one PLC is good as well. */
  lemma GoodThenEnd(cap: nat, h: HubState, out: Outcome, out': Outcome, name: string, p: Pick, e: Ending, now: nat,
                    ledger: map<nat, Fate>, clock: nat)
    requires Good(cap, h, out, ledger, clock) && name in h.plcs && Terminal(e.state)
    requires out.finished != [] ==> out.finished[0].state == e.state
    requires name in out.hub.plcs && Extends(cap, out, out', name, p, EndedAll(Take(out.hub.plcs[name].cmds, p), e, now))
    ensures Good(cap, h, out', ledger, clock)
    ensures out'.finished != [] ==> out'.finished[0].state == e.state
  {
    var st := out.hub.plcs[name];
    var more := EndedAll(Take(st.cmds, p), e, now);
    TakenFinishedOk(name, st, p, out.finished, e, now, ledger, clock);
    ExtendedFits(cap, out, out', name, p, e, now, ledger, clock);
    ExtendedLosesNone(cap, h.plcs, out, out', name, p, e, now);
    EndHistories(cap, h.plcs, out, out', name, more);
    PlcsKnown(h.plcs, out.finished, more, name);
  }

  lemma PlcsKnown(plcs: map<string, Plc>, finished: seq<CmdView>, more: seq<CmdView>, name: string)
    requires name in plcs && forall k | 0 <= k < |more| :: more[k].plc == name
    requires forall j | 0 <= j < |finished| :: finished[j].plc in plcs
    ensures forall j | 0 <= j < |finished + more| :: (finished + more)[j].plc in plcs
  {
  }
}
