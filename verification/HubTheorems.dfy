/** The promises of the hub, for every run: `apps/plc-link-server/src/hub.rs`. */
module HubTheorems {
  import opened Wrappers
  import opened HubSpec
  import opened HubRuns
  import opened HubInvariant
  import opened HubSafety

  // ---------------------------------------------------------------- where a command is

  /** The id stands in the queue of this PLC. */
  predicate QueuedAt(h: HubState, name: string, id: nat) {
    name in h.plcs && HasId(h.plcs[name].cmds, id)
  }

  ghost predicate Live(h: HubState, id: nat) {
    exists n :: QueuedAt(h, n, id)
  }

  /** In every run, every id given out is in exactly one of three places: in the queue of one PLC, among the recorded
      commands, or it was refused. */
  lemma EveryCommandIsSomewhere(cfg: Config, ops: seq<Op>, id: nat)
    ensures var w := Run(cfg, START, ops);
      && (1 <= id <= w.hub.nextCmdId <==> id in w.ledger)
      && (id in w.ledger ==> (Live(w.hub, id) <==> LivePhase(w.ledger[id].phase)))
      && (id in w.ledger ==> (HasView(w.recorded, id) <==> w.ledger[id].phase.Over?))
      && (Live(w.hub, id) || HasView(w.recorded, id) ==> id in w.ledger)
      && (forall m, n | QueuedAt(w.hub, m, id) && QueuedAt(w.hub, n, id) :: m == n)
  {
    var w := Run(cfg, START, ops);
    RunKeepsInv(cfg, ops);
    forall n | QueuedAt(w.hub, n, id) ensures id in w.ledger && w.ledger[id].plc == n && LivePhase(w.ledger[id].phase) {
      var k :| 0 <= k < |w.hub.plcs[n].cmds| && w.hub.plcs[n].cmds[k].view.id == id;
      assert PlcOk(n, w.hub.plcs[n], w.ledger, w.clock);
      assert CmdOk(n, w.hub.plcs[n].cmds[k], w.ledger, w.clock);
    }
    if id in w.ledger && LivePhase(w.ledger[id].phase) { assert QueuedAt(w.hub, w.ledger[id].plc, id); }
    if HasView(w.recorded, id) {
      var i :| 0 <= i < |w.recorded| && w.recorded[i].id == id;
      assert w.ledger[w.recorded[i].id] == Fate(w.recorded[i].plc, Over(w.recorded[i].state));
    }
  }

  /** In every run the queues hold only queued or sent commands in submission order, nothing is handed out twice, what
      ended is recorded once with a final state, and every history is the end of that record, within its cap. */
  lemma QueuesAndRecords(cfg: Config, ops: seq<Op>)
    ensures var w := Run(cfg, START, ops);
      && (forall n | n in w.hub.plcs :: Increasing(w.hub.plcs[n].cmds)
            && forall k | 0 <= k < |w.hub.plcs[n].cmds| :: !Terminal(w.hub.plcs[n].cmds[k].view.state) && w.hub.plcs[n].cmds[k].view.plc == n)
      && (forall i, j | 0 <= i < j < |w.handed| :: w.handed[i] != w.handed[j])
      && (forall i, j | 0 <= i < j < |w.recorded| :: w.recorded[i].id != w.recorded[j].id)
      && (forall i | 0 <= i < |w.recorded| :: Terminal(w.recorded[i].state))
      && (forall n | n in w.hub.plcs :: w.hub.plcs[n].history == LastN(OfPlc(w.recorded, n), cfg.historyCap))
  {
    var w := Run(cfg, START, ops);
    RunKeepsInv(cfg, ops);
    forall n | n in w.hub.plcs
      ensures Increasing(w.hub.plcs[n].cmds)
      ensures forall k | 0 <= k < |w.hub.plcs[n].cmds| :: !Terminal(w.hub.plcs[n].cmds[k].view.state) && w.hub.plcs[n].cmds[k].view.plc == n
    {
      assert PlcOk(n, w.hub.plcs[n], w.ledger, w.clock);
      assert forall k | 0 <= k < |w.hub.plcs[n].cmds| :: CmdOk(n, w.hub.plcs[n].cmds[k], w.ledger, w.clock);
    }
  }

  // ---------------------------------------------------------------- a command only moves forward

  predicate Forward(a: Phase, b: Phase) {
    match a
    case Waiting => !b.NeverAccepted?
    case InFlight => b == InFlight || b.Over?
    case Over(_) => b == a
    case NeverAccepted => b == a
  }

  /** The id keeps its PLC and its phase moved forward. */
  predicate Moved(ledger: map<nat, Fate>, ledger': map<nat, Fate>, id: nat) {
    id in ledger && id in ledger' && ledger'[id].plc == ledger[id].plc && Forward(ledger[id].phase, ledger'[id].phase)
  }

  lemma CallIsForward(cfg: Config, w: World, op: Op, id: nat)
    requires Inv(cfg.historyCap, w) && id in w.ledger && !op.OpDeliver? && !op.OpAdvance? && !op.OpSubmit?
    ensures Moved(w.ledger, Apply(cfg, w, op).ledger, id)
  {
    var out := Call(cfg, w.hub, op, w.clock);
    CallIsGood(cfg, w.hub, op, w.clock, w.ledger, w.clock);
    FinishedWereLive(out, id, w.ledger);
    assert Apply(cfg, w, op).ledger == LedgerAfter(w.ledger, out);
  }

  lemma SubmitIsForward(cfg: Config, w: World, op: Op, id: nat)
    requires Inv(cfg.historyCap, w) && id in w.ledger && op.OpSubmit?
    ensures Moved(w.ledger, Apply(cfg, w, op).ledger, id)
  {
    FreshId(cfg.historyCap, w);
    SubmitShape(cfg, w, op.name, op.msg, op.queue, op.wait, op.accepts);
    assert op == OpSubmit(op.name, op.msg, op.queue, op.wait, op.accepts);
  }

  lemma StepIsForward(cfg: Config, w: World, op: Op, id: nat)
    requires Inv(cfg.historyCap, w) && id in w.ledger
    ensures Moved(w.ledger, Apply(cfg, w, op).ledger, id)
  {
    if op.OpSubmit? {
      SubmitIsForward(cfg, w, op, id);
    } else if op.OpAdvance? || op.OpDeliver? {
      LedgerKept(cfg, w, op);
    } else {
      CallIsForward(cfg, w, op, id);
    }
  }

  lemma LedgerKept(cfg: Config, w: World, op: Op)
    requires op.OpAdvance? || op.OpDeliver?
    ensures Apply(cfg, w, op).ledger == w.ledger
  {
  }

  lemma NextIsForward(cfg: Config, ops: seq<Op>, op: Op, id: nat)
    requires id in Run(cfg, START, ops).ledger
    ensures Moved(Run(cfg, START, ops).ledger, Run(cfg, START, ops + [op]).ledger, id)
  {
    RunKeepsInv(cfg, ops);
    StepIsForward(cfg, Run(cfg, START, ops), op, id);
    RunSnoc(cfg, START, ops, op);
  }

  lemma FinishedWereLive(out: Outcome, id: nat, ledger: map<nat, Fate>)
    requires FinishedOk(out.finished, ledger) && id in ledger
    ensures Forward(ledger[id].phase, PhaseAfter(ledger[id], id, out))
  {
    if v :| v in out.finished && v.id == id {
      var j :| 0 <= j < |out.finished| && out.finished[j] == v;
      assert LivePhase(ledger[out.finished[j].id].phase);
    }
  }

  lemma {:induction false} RunConcat(cfg: Config, w: World, a: seq<Op>, b: seq<Op>)
    ensures Run(cfg, w, a + b) == Run(cfg, Run(cfg, w, a), b)
    decreases |b|
  {
    if b == [] {
      assert a + b == a;
    } else {
      RunConcat(cfg, w, a, b[..|b| - 1]);
      assert (a + b)[..|a + b| - 1] == a + b[..|b| - 1];
    }
  }

  lemma MovedOn(a: map<nat, Fate>, b: map<nat, Fate>, c: map<nat, Fate>, id: nat)
    requires Moved(a, b, id) && Moved(b, c, id)
    ensures Moved(a, c, id)
  {
  }

  /** What moves forward in every step has moved forward in the end. */
  lemma {:induction false} MovedThrough(ledger: nat -> map<nat, Fate>, n: nat, id: nat)
    requires id in ledger(0) && forall k: nat | k < n && id in ledger(k) :: Moved(ledger(k), ledger(k + 1), id)
    ensures Moved(ledger(0), ledger(n), id)
  {
    if n > 0 {
      MovedThrough(ledger, n - 1, id);
      MovedOn(ledger(0), ledger(n - 1), ledger(n), id);
    }
  }

  lemma Prolong(ops: seq<Op>, more: seq<Op>, k: nat)
    requires k < |more|
    ensures ops + more[..k + 1] == ops + more[..k] + [more[k]]
  {
  }

  /** However a run goes on, a command keeps its PLC and moves only queued -> sent -> ended; one that ended stays as it
      ended and never comes back. */
  lemma CommandsNeverComeBack(cfg: Config, ops: seq<Op>, more: seq<Op>, id: nat)
    requires id in Run(cfg, START, ops).ledger
    ensures Moved(Run(cfg, START, ops).ledger, Run(cfg, START, ops + more).ledger, id)
  {
    var ledger := (k: nat) => Run(cfg, START, ops + if k <= |more| then more[..k] else more).ledger;
    forall k: nat | k < |more| && id in ledger(k) ensures Moved(ledger(k), ledger(k + 1), id) {
      Prolong(ops, more, k);
      NextIsForward(cfg, ops + more[..k], more[k], id);
    }
    assert ops + more[..0] == ops && more[..|more|] == more;
    MovedThrough(ledger, |more|, id);
  }

  // ---------------------------------------------------------------- answering

  /** The id is among the answers exactly once. */
  predicate AnsweredOnce(answers: seq<CmdView>, id: nat) {
    HasView(answers, id) && forall i, j | 0 <= i < |answers| && 0 <= j < |answers| && answers[i].id == id && answers[j].id == id :: i == j
  }

  /** How it stands with a caller that waits, or waited, for `id`. */
  predicate WaiterFate(w: World, id: nat) {
    && id in w.ledger
    && (id in w.hub.waiters <==> !HasView(w.answers, id))
    && (id in w.hub.waiters ==> LivePhase(w.ledger[id].phase) || Pending(w.undelivered, id))
    && (id !in w.hub.waiters ==> AnsweredOnce(w.answers, id) && w.ledger[id].phase.Over?)
  }

  lemma AnswerIsRecorded(cap: nat, w: World, i: nat)
    requires Inv(cap, w) && i < |w.answers|
    ensures w.answers[i] in w.recorded && Terminal(w.answers[i].state)
    ensures w.answers[i].id in w.ledger && w.ledger[w.answers[i].id] == Fate(w.answers[i].plc, Over(w.answers[i].state))
  {
    assert w.answers[i] in w.recorded;
    var j :| 0 <= j < |w.recorded| && w.recorded[j] == w.answers[i];
    assert w.ledger[w.recorded[j].id] == Fate(w.recorded[j].plc, Over(w.recorded[j].state));
  }

  lemma WaiterFateHolds(cap: nat, w: World, id: nat)
    requires Inv(cap, w) && id in w.registered
    ensures WaiterFate(w, id)
  {
    if HasView(w.answers, id) {
      var i: nat :| i < |w.answers| && w.answers[i].id == id;
      AnswerIsRecorded(cap, w, i);
      assert w.answers[i].id !in w.hub.waiters;
    }
    if id !in w.hub.waiters {
      assert id in AnswerIds(w.answers);
      var i: nat :| i < |w.answers| && w.answers[i].id == id;
      AnswerIsRecorded(cap, w, i);
    }
  }

  /** In every run a caller that waits for a command either still waits, and then the command is live or its batch is not
      delivered yet, or has been answered once, with the recorded final view. */
  lemma EveryWaiterIsAnsweredOnce(cfg: Config, ops: seq<Op>, id: nat)
    requires id in Run(cfg, START, ops).registered
    ensures var w := Run(cfg, START, ops);
      && WaiterFate(w, id)
      && (forall i | 0 <= i < |w.answers| :: w.answers[i] in w.recorded && Terminal(w.answers[i].state))
      && (w.undelivered == [] && w.ledger[id].phase.Over? ==> AnsweredOnce(w.answers, id))
  {
    var w := Run(cfg, START, ops);
    RunKeepsInv(cfg, ops);
    WaiterFateHolds(cfg.historyCap, w, id);
    forall i: nat | i < |w.answers| ensures w.answers[i] in w.recorded && Terminal(w.answers[i].state) {
      AnswerIsRecorded(cfg.historyCap, w, i);
    }
  }

  // ---------------------------------------------------------------- the time to live

  lemma {:induction false} TickExpires(cfg: Config, h: HubState, order: seq<string>, now: nat, name: string, k: nat)
    requires var out := Tick(cfg, h, order, now); name in out.hub.plcs && k < |out.hub.plcs[name].cmds|
    requires name in order
    ensures Age(Tick(cfg, h, order, now).hub.plcs[name].cmds[k], now) < cfg.cmdTtl
    decreases |order|
  {
    var front, last := order[..|order| - 1], order[|order| - 1];
    var prev := Tick(cfg, h, front, now);
    TickKnows(cfg, h, front, now);
    if name == last {
      var cmds := prev.hub.plcs[name].cmds;
      KeepOf(cmds, OlderThan(now, cfg.cmdTtl));
      assert Keep(cmds, OlderThan(now, cfg.cmdTtl))[k] in Keep(cmds, OlderThan(now, cfg.cmdTtl));
    } else {
      assert order == front + [last];
      TickExpires(cfg, h, front, now, name, k);
    }
  }

  lemma {:induction false} TickKnows(cfg: Config, h: HubState, order: seq<string>, now: nat)
    ensures Tick(cfg, h, order, now).hub.plcs.Keys == h.plcs.Keys
  {
    if order != [] { TickKnows(cfg, h, order[..|order| - 1], now); }
  }

  /** Right after a `tick` over all PLCs, no command in a queue is as old as the time to live. */
  lemma TickLeavesNothingOld(cfg: Config, w: World, order: seq<string>, name: string, k: nat)
    requires forall n | n in w.hub.plcs :: n in order
    requires var w' := Apply(cfg, w, OpTick(order)); name in w'.hub.plcs && k < |w'.hub.plcs[name].cmds|
    ensures var w' := Apply(cfg, w, OpTick(order)); Age(w'.hub.plcs[name].cmds[k], w'.clock) < cfg.cmdTtl
  {
    TickKnows(cfg, w.hub, order, w.clock);
    TickExpires(cfg, w.hub, order, w.clock, name, k);
  }

  // ---------------------------------------------------------------- connections

  predicate LinkOk(st: Plc, next: nat) {
    && st.connId <= next
    && (st.connected ==> st.connId >= 1)
    && st.disconnects + (if st.connected then 1 else 0) <= st.connects
  }

  /** Connection ids are unique, and every PLC has at least as many connects as disconnects, more while connected. */
  predicate LinksOk(h: HubState) {
    && (forall n | n in h.plcs :: LinkOk(h.plcs[n], h.nextConnId))
    && (forall m, n | m in h.plcs && n in h.plcs && m != n && h.plcs[m].connId == h.plcs[n].connId :: h.plcs[n].connId == 0)
  }

  /** The entry as far as connections go: ids and counters only grow, a new id lies beyond all earlier ones, and under the
      same id a link only goes down, with its channel. */
  predicate EntryGrows(st: Plc, st': Plc, next: nat) {
    && st'.connects >= st.connects && st'.disconnects >= st.disconnects
    && (st'.connId == st.connId || st'.connId > next)
    && (st'.connId == st.connId && st'.connected ==> st.connected && st'.tx == st.tx)
  }

  /** Connections between two states. */
  predicate LinkGrows(h: HubState, h': HubState) {
    && h'.nextConnId >= h.nextConnId
    && (forall n | n in h.plcs :: n in h'.plcs && EntryGrows(h.plcs[n], h'.plcs[n], h.nextConnId))
    && (forall n | n in h'.plcs && n !in h.plcs :: h'.plcs[n].connId == 0 || h'.plcs[n].connId > h.nextConnId)
  }

  /** The link fields of `st'` follow from those of `st`, with no new connection. */
  predicate LinkFollows(st: Plc, st': Plc) {
    && st'.connId == st.connId && st'.connects == st.connects && (st'.connected ==> st'.tx == st.tx)
    && ( || (st'.connected == st.connected && st'.disconnects == st.disconnects)
         || (st.connected && !st'.connected && st'.disconnects == st.disconnects + 1))
  }

  lemma FollowingLinks(h: HubState, h': HubState)
    requires LinksOk(h) && h'.nextConnId == h.nextConnId
    requires forall n | n in h.plcs :: n in h'.plcs && LinkFollows(h.plcs[n], h'.plcs[n])
    requires forall n | n in h'.plcs && n !in h.plcs :: LinkFollows(NewPlc(n, Active), h'.plcs[n])
    ensures LinksOk(h') && LinkGrows(h, h')
  {
    forall m, n | m in h'.plcs && n in h'.plcs && m != n && h'.plcs[m].connId == h'.plcs[n].connId ensures h'.plcs[n].connId == 0 {
      assert m in h.plcs || h'.plcs[m].connId == 0;
    }
  }

  lemma GrowsOn(h: HubState, mid: HubState, h': HubState)
    requires LinksOk(h) && LinkGrows(h, mid) && LinkGrows(mid, h') && mid.nextConnId == h.nextConnId
    ensures LinkGrows(h, h')
  {
    forall n | n in h.plcs ensures n in h'.plcs && EntryGrows(h.plcs[n], h'.plcs[n], h.nextConnId) {
      assert LinkOk(h.plcs[n], h.nextConnId);
      assert EntryGrows(h.plcs[n], mid.plcs[n], h.nextConnId) && EntryGrows(mid.plcs[n], h'.plcs[n], h.nextConnId);
    }
  }

  lemma TickOneLinks(cfg: Config, h: HubState, name: string, now: nat)
    requires LinksOk(h) && name in h.plcs
    ensures var h' := h.(plcs := h.plcs[name := TickPlc(cfg, h.plcs[name], now)]); LinksOk(h') && LinkGrows(h, h')
  {
    var h' := h.(plcs := h.plcs[name := TickPlc(cfg, h.plcs[name], now)]);
    assert LinkFollows(h.plcs[name], h'.plcs[name]);
    FollowingLinks(h, h');
  }

  lemma {:induction false} TickLinks(cfg: Config, h: HubState, order: seq<string>, now: nat)
    requires LinksOk(h)
    ensures LinksOk(Tick(cfg, h, order, now).hub) && LinkGrows(h, Tick(cfg, h, order, now).hub)
    ensures Tick(cfg, h, order, now).hub.nextConnId == h.nextConnId
    decreases |order|
  {
    if order == [] {
      SameLinks(h, h);
    } else {
      var front, name := order[..|order| - 1], order[|order| - 1];
      var prev := Tick(cfg, h, front, now).hub;
      TickLinks(cfg, h, front, now);
      if name in prev.plcs {
        TickOneLinks(cfg, prev, name, now);
        GrowsOn(h, prev, Tick(cfg, h, order, now).hub);
      }
    }
  }

  /** Only PLC `name` changed, and its link at most went down. */
  lemma OneLink(h: HubState, h': HubState, name: string)
    requires LinksOk(h) && h'.nextConnId == h.nextConnId
    requires name in h'.plcs && h'.plcs == h.plcs[name := h'.plcs[name]]
    requires LinkFollows(PlcOr(h, name, Active), h'.plcs[name])
    ensures LinksOk(h') && LinkGrows(h, h')
  {
    FollowingLinks(h, h');
  }

  lemma SameLinks(h: HubState, h': HubState)
    requires LinksOk(h) && h'.nextConnId == h.nextConnId && h'.plcs == h.plcs
    ensures LinksOk(h') && LinkGrows(h, h')
  {
    FollowingLinks(h, h');
  }

  /** The calls that open no connection and visit one PLC only. */
  lemma SmallCallLinks(cfg: Config, h: HubState, op: Op, now: nat)
    requires LinksOk(h)
    requires op.OpEnsure? || op.OpDetach? || op.OpReceived? || op.OpTake? || op.OpCommandSent? || op.OpPop?
    ensures LinksOk(Call(cfg, h, op, now).hub) && LinkGrows(h, Call(cfg, h, op, now).hub)
  {
    var h' := Call(cfg, h, op, now).hub;
    if h' == h { SameLinks(h, h'); } else { OneLink(h, h', op.name); }
  }

  lemma EndIdLinks(cfg: Config, h: HubState, name: string, id: nat, e: Ending, now: nat)
    requires LinksOk(h)
    ensures LinksOk(EndId(cfg, h, name, id, e, now).hub) && LinkGrows(h, EndId(cfg, h, name, id, e, now).hub)
  {
    var h' := EndId(cfg, h, name, id, e, now).hub;
    if h' == h { SameLinks(h, h'); } else { OneLink(h, h', name); }
  }

  lemma ReplyLinks(cfg: Config, h: HubState, name: string, m: Message, id: Option<nat>, http: Option<nat>, now: nat)
    requires LinksOk(h)
    ensures LinksOk(Reply(cfg, h, name, m, id, http, now).hub) && LinkGrows(h, Reply(cfg, h, name, m, id, http, now).hub)
  {
    SameLinks(h, h);
    match ReadReply(cfg, m, id.Some?, http)
    case None =>
    case Some((seqNo, e)) =>
      if name in h.plcs {
        var i := FirstAnswered(h.plcs[name].cmds, seqNo, id);
        if i < |h.plcs[name].cmds| { EndIdLinks(cfg, h, name, h.plcs[name].cmds[i].view.id, e, now); }
      }
  }

  lemma SubmitLinks(h: HubState, name: string, msg: Message, queue: bool, wait: bool, accepts: bool, now: nat)
    requires LinksOk(h)
    ensures var h' := Submit(h, name, msg, queue, wait, accepts, now).1.hub; LinksOk(h') && LinkGrows(h, h')
  {
    var h' := Submit(h, name, msg, queue, wait, accepts, now).1.hub;
    if h'.plcs == h.plcs { SameLinks(h, h'); } else { OneLink(h, h', name); }
  }

  lemma StepKeepsLinks(cfg: Config, w: World, op: Op)
    requires LinksOk(w.hub)
    ensures LinksOk(Apply(cfg, w, op).hub) && LinkGrows(w.hub, Apply(cfg, w, op).hub)
  {
    if op.OpDeliver? || op.OpAdvance? {
      SameLinks(w.hub, Apply(cfg, w, op).hub);
    } else {
      CallLinks(cfg, w.hub, op, w.clock);
      StepIsCall(cfg, w, op);
    }
  }

  lemma StepIsCall(cfg: Config, w: World, op: Op)
    requires !op.OpDeliver? && !op.OpAdvance?
    ensures Apply(cfg, w, op).hub == Call(cfg, w.hub, op, w.clock).hub
  {
  }

  lemma CallLinks(cfg: Config, h: HubState, op: Op, now: nat)
    requires LinksOk(h) && !op.OpDeliver? && !op.OpAdvance?
    ensures LinksOk(Call(cfg, h, op, now).hub) && LinkGrows(h, Call(cfg, h, op, now).hub)
  {
    match op
    case OpTick(order) => TickLinks(cfg, h, order, now);
    case OpAttach(name, mode, kind, tx) => NewConnection(h, Attach(h, name, mode, kind, tx, now).hub, name);
    case OpTouch(name) => TouchLinks(h, name, now);
    case OpReply(name, msg, replyTo, http) => ReplyLinks(cfg, h, name, msg, replyTo, http, now);
    case OpFailed(name, id, err, http) => EndIdLinks(cfg, h, name, id, Ending(Failed, Some(SendFailed(err)), None, None, http), now);
    case OpCancel(name, id) => EndIdLinks(cfg, h, name, id, Ending(Cancelled, Some(CancelledByApi), None, None, None), now);
    case OpSubmit(name, msg, queue, wait, accepts) => SubmitLinks(h, name, msg, queue, wait, accepts, now);
    case _ => SmallCallLinks(cfg, h, op, now);
  }

  lemma NewConnection(h: HubState, h': HubState, name: string)
    requires LinksOk(h) && h'.nextConnId == h.nextConnId + 1
    requires name in h'.plcs && h'.plcs.Keys == h.plcs.Keys + {name}
    requires forall n | n in h.plcs && n != name :: h'.plcs[n] == h.plcs[n]
    requires h'.plcs[name].connId == h'.nextConnId && h'.plcs[name].connected
    requires h'.plcs[name].connects == PlcOr(h, name, Active).connects + 1 && h'.plcs[name].disconnects == PlcOr(h, name, Active).disconnects
    ensures LinksOk(h') && LinkGrows(h, h')
  {
    forall n | n in h'.plcs ensures LinkOk(h'.plcs[n], h'.nextConnId) {
      if n in h.plcs { assert LinkOk(h.plcs[n], h.nextConnId); }
    }
  }

  lemma TouchLinks(h: HubState, name: string, now: nat)
    requires LinksOk(h)
    ensures LinksOk(TouchHttp(h, name, now).hub) && LinkGrows(h, TouchHttp(h, name, now).hub)
  {
    var h', st := TouchHttp(h, name, now).hub, PlcOr(h, name, Active);
    if st.connected && st.framing == Some(Http) && st.mode == Active {
      FollowingLinks(h, h'.(nextConnId := h.nextConnId));
      forall n | n in h'.plcs ensures LinkOk(h'.plcs[n], h'.nextConnId) {}
    } else {
      NewConnection(h, h', name);
    }
  }

  /** In every run: connection ids are unique, and disconnects never outnumber connects, strictly fewer while connected. */
  lemma {:induction false} ConnectionsAreSafe(cfg: Config, ops: seq<Op>)
    ensures LinksOk(Run(cfg, START, ops).hub)
  {
    if ops != [] {
      ConnectionsAreSafe(cfg, ops[..|ops| - 1]);
      StepKeepsLinks(cfg, Run(cfg, START, ops[..|ops| - 1]), ops[|ops| - 1]);
    }
  }

  /** `detach` with a connection id that is not the PLC's live one changes nothing; otherwise it leaves no sent command,
      keeps the queued ones in order and fails exactly the sent ones, in order. */
  lemma DetachIsPrecise(cfg: Config, h: HubState, name: string, connId: nat, reason: Option<string>, now: nat)
    requires name in h.plcs && forall k | 0 <= k < |h.plcs[name].cmds| :: !Terminal(h.plcs[name].cmds[k].view.state)
    ensures var out, st := Detach(cfg, h, name, connId, reason, now), h.plcs[name];
      if st.connId != connId || !st.connected then out == Quiet(h)
      else
        && !out.hub.plcs[name].connected && out.hub.plcs[name].tx == None
        && out.hub.plcs[name].cmds == Take(st.cmds, AllQueued)
        && out.finished == EndedAll(Take(st.cmds, AllSent), LinkEnding(reason), now)
        && (forall n | n in h.plcs && n != name :: out.hub.plcs[n] == h.plcs[n])
  {
    SentOrQueued(h.plcs[name].cmds);
  }

  lemma {:induction false} SentOrQueued(cmds: seq<Cmd>)
    requires forall k | 0 <= k < |cmds| :: !Terminal(cmds[k].view.state)
    ensures Keep(cmds, AllSent) == Take(cmds, AllQueued)
  {
    if cmds != [] { SentOrQueued(cmds[1..]); }
  }
}
