/** The invariant of the hub over every run: `HubRuns.Apply` keeps it, whatever call, delivery or passing of time comes next. */
module HubInvariant {
  import opened Wrappers
  import opened HubSpec
  import opened HubRuns

  // ---------------------------------------------------------------- calls that hand commands out

  /** The same command, possibly sent now. */
  predicate Advances(c: Cmd, c': Cmd) {
    && c'.createdAt == c.createdAt
    && c'.view == c.view.(seqNo := c'.view.seqNo, state := c'.view.state, sent := c'.view.sent)
    && (c'.view.state == c.view.state || c'.view.state == Sent)
  }

  predicate HandsAt(cmds: seq<Cmd>, cmds': seq<Cmd>, id: nat, k: nat) {
    k < |cmds| && k < |cmds'| && cmds[k].view.id == id && cmds[k].view.state == Queued && cmds'[k].view.state == Sent
  }

  predicate HandsOver(cmds: seq<Cmd>, cmds': seq<Cmd>, id: nat) {
    exists k: nat :: k < |cmds| && HandsAt(cmds, cmds', id, k)
  }

  lemma AdvancedFits(name: string, st: Plc, st': Plc, ledger: map<nat, Fate>, clock: nat)
    requires PlcOk(name, st, ledger, clock) && st'.name == name && |st'.cmds| == |st.cmds|
    requires forall k | 0 <= k < |st.cmds| :: Advances(st.cmds[k], st'.cmds[k])
    ensures Fits(name, st', ledger, clock) && Accounted(st.cmds, st'.cmds, [])
  {
    forall k | 0 <= k < |st.cmds| ensures FitsCmd(name, st'.cmds[k], ledger, clock) && HasId(st'.cmds, st.cmds[k].view.id) {
      assert CmdOk(name, st.cmds[k], ledger, clock);
      assert st'.cmds[k].view.id == st.cmds[k].view.id;
    }
  }

  lemma HandedIsOk(h: HubState, name: string, cmds: seq<Cmd>, handed: seq<nat>, ledger: map<nat, Fate>, clock: nat)
    requires name in h.plcs && forall k | 0 <= k < |cmds| :: CmdOk(name, cmds[k], ledger, clock)
    requires |h.plcs[name].cmds| == |cmds| && forall k | 0 <= k < |cmds| :: Advances(cmds[k], h.plcs[name].cmds[k])
    requires forall i, j | 0 <= i < j < |handed| :: handed[i] != handed[j]
    requires forall i | 0 <= i < |handed| :: HandsOver(cmds, h.plcs[name].cmds, handed[i])
    ensures HandedOk(h, handed, ledger)
  {
    forall i | 0 <= i < |handed|
      ensures handed[i] in ledger && ledger[handed[i]].phase == Waiting && SentIn(h, ledger[handed[i]].plc, handed[i])
    {
      var k: nat :| k < |cmds| && HandsAt(cmds, h.plcs[name].cmds, handed[i], k);
      assert CmdOk(name, cmds[k], ledger, clock);
      assert h.plcs[name].cmds[k].view.id == handed[i];
    }
  }

  lemma GoodSent(cap: nat, h: HubState, out: Outcome, name: string, st': Plc, ledger: map<nat, Fate>, clock: nat)
    requires QueuesOk(h.plcs, h.nextCmdId, ledger, clock) && name in h.plcs
    requires out.hub.plcs == h.plcs[name := st'] && out.hub.nextCmdId == h.nextCmdId && out.hub.waiters == h.waiters
    requires out.finished == []
    requires st'.name == name && st'.history == h.plcs[name].history && |st'.cmds| == |h.plcs[name].cmds|
    requires forall k | 0 <= k < |st'.cmds| :: Advances(h.plcs[name].cmds[k], st'.cmds[k])
    requires forall i, j | 0 <= i < j < |out.handed| :: out.handed[i] != out.handed[j]
    requires forall i | 0 <= i < |out.handed| :: HandsOver(h.plcs[name].cmds, st'.cmds, out.handed[i])
    ensures Good(cap, h, out, ledger, clock)
  {
    assert PlcOk(name, h.plcs[name], ledger, clock);
    AdvancedFits(name, h.plcs[name], st', ledger, clock);
    HandedIsOk(out.hub, name, h.plcs[name].cmds, out.handed, ledger, clock);
    forall n | n in out.hub.plcs ensures Fits(n, out.hub.plcs[n], ledger, clock) {
      if n != name { CmdsFit(n, h.plcs[n], ledger, clock); }
    }
    forall n | n in h.plcs ensures Accounted(h.plcs[n].cmds, out.hub.plcs[n].cmds, []) {
      if n != name { OthersAccounted(h.plcs[n].cmds, []); }
    }
  }

  lemma {:induction false} TakenHandedOver(cmds: seq<Cmd>, p: Pick, now: nat, id: nat)
    requires p == AllQueued && id in Ids(Take(cmds, p))
    ensures HandsOver(cmds, SentPicked(cmds, p, now), id)
  {
    TakeOf(cmds, p);
    var j :| 0 <= j < |Take(cmds, p)| && Take(cmds, p)[j].view.id == id;
    assert Take(cmds, p)[j] in Take(cmds, p);
    var k :| 0 <= k < |cmds| && cmds[k] == Take(cmds, p)[j];
    assert HandsAt(cmds, SentPicked(cmds, p, now), id, k);
  }

  lemma GoodTake(cap: nat, h: HubState, name: string, now: nat, ledger: map<nat, Fate>, clock: nat)
    requires QueuesOk(h.plcs, h.nextCmdId, ledger, clock)
    ensures Good(cap, h, TakeQueued(h, name, now).1, ledger, clock)
  {
    if name !in h.plcs {
      GoodQuiet(cap, h, ledger, clock);
    } else {
      var out, st := TakeQueued(h, name, now).1, h.plcs[name];
      assert PlcOk(name, st, ledger, clock);
      TakeOf(st.cmds, AllQueued);
      forall i | 0 <= i < |out.handed| ensures HandsOver(st.cmds, out.hub.plcs[name].cmds, out.handed[i]) {
        assert out.handed[i] in Ids(Take(st.cmds, AllQueued));
        TakenHandedOver(st.cmds, AllQueued, now, out.handed[i]);
      }
      GoodSent(cap, h, out, name, out.hub.plcs[name], ledger, clock);
    }
  }

  lemma GoodCommandSent(cap: nat, h: HubState, name: string, id: nat, seqNo: nat, now: nat, ledger: map<nat, Fate>, clock: nat)
    requires QueuesOk(h.plcs, h.nextCmdId, ledger, clock)
    ensures Good(cap, h, CommandSent(h, name, id, seqNo, now), ledger, clock)
  {
    if name !in h.plcs || First(h.plcs[name].cmds, TheId(id)) == |h.plcs[name].cmds| {
      GoodQuiet(cap, h, ledger, clock);
    } else {
      var out := CommandSent(h, name, id, seqNo, now);
      assert PlcOk(name, h.plcs[name], ledger, clock);
      GoodSent(cap, h, out, name, out.hub.plcs[name], ledger, clock);
    }
  }

  lemma GoodPop(cap: nat, h: HubState, name: string, now: nat, ledger: map<nat, Fate>, clock: nat)
    requires QueuesOk(h.plcs, h.nextCmdId, ledger, clock)
    ensures Good(cap, h, PopHttp(h, name, now).1, ledger, clock)
  {
    if name !in h.plcs {
      GoodQuiet(cap, h, ledger, clock);
    } else {
      var out, st := PopHttp(h, name, now).1, h.plcs[name];
      assert PlcOk(name, st, ledger, clock);
      var i := First(st.cmds, AllQueued);
      if i < |st.cmds| {
        assert HandsAt(st.cmds, out.hub.plcs[name].cmds, out.handed[0], i);
        assert HandsOver(st.cmds, out.hub.plcs[name].cmds, out.handed[0]);
      }
      GoodSent(cap, h, out, name, out.hub.plcs[name], ledger, clock);
    }
  }

  // ---------------------------------------------------------------- calls that end commands

  lemma GoodEnd(cfg: Config, h: HubState, name: string, st: Plc, p: Pick, e: Ending, now: nat, ledger: map<nat, Fate>, clock: nat)
    requires QueuesOk(h.plcs, h.nextCmdId, ledger, clock) && name in h.plcs && Terminal(e.state)
    requires st.name == name && st.cmds == h.plcs[name].cmds && st.history == h.plcs[name].history
    ensures Good(cfg.historyCap, h, EndOutcome(cfg, h, name, st, p, e, now), ledger, clock)
  {
    GoodQuiet(cfg.historyCap, h, ledger, clock);
    EndExtends(cfg, h, name, st, p, e, now);
    GoodThenEnd(cfg.historyCap, h, Quiet(h), EndOutcome(cfg, h, name, st, p, e, now), name, p, e, now, ledger, clock);
  }

  lemma EndExtends(cfg: Config, h: HubState, name: string, st: Plc, p: Pick, e: Ending, now: nat)
    requires name in h.plcs && st.name == name && st.cmds == h.plcs[name].cmds && st.history == h.plcs[name].history
    ensures Extends(cfg.historyCap, Quiet(h), EndOutcome(cfg, h, name, st, p, e, now), name, p, EndedAll(Take(h.plcs[name].cmds, p), e, now))
  {
    var more := EndedAll(Take(st.cmds, p), e, now);
    assert Quiet(h).finished + more == more;
  }

  lemma GoodEndId(cfg: Config, h: HubState, name: string, id: nat, e: Ending, now: nat, ledger: map<nat, Fate>, clock: nat)
    requires QueuesOk(h.plcs, h.nextCmdId, ledger, clock) && Terminal(e.state)
    ensures Good(cfg.historyCap, h, EndId(cfg, h, name, id, e, now), ledger, clock)
  {
    GoodQuiet(cfg.historyCap, h, ledger, clock);
    if name in h.plcs {
      assert PlcOk(name, h.plcs[name], ledger, clock);
      GoodEnd(cfg, h, name, h.plcs[name], TheId(id), e, now, ledger, clock);
    }
  }

  lemma {:induction false} GoodTick(cfg: Config, h: HubState, order: seq<string>, now: nat, ledger: map<nat, Fate>, clock: nat)
    requires QueuesOk(h.plcs, h.nextCmdId, ledger, clock)
    ensures var out := Tick(cfg, h, order, now);
      && Good(cfg.historyCap, h, out, ledger, clock) && out.hub.plcs.Keys == h.plcs.Keys
      && out.handed == [] && (out.finished != [] ==> out.finished[0].state == Expired)
    decreases |order|
  {
    if order == [] {
      GoodQuiet(cfg.historyCap, h, ledger, clock);
    } else {
      var prev, out := Tick(cfg, h, order[..|order| - 1], now), Tick(cfg, h, order, now);
      var name := order[|order| - 1];
      GoodTick(cfg, h, order[..|order| - 1], now, ledger, clock);
      if name in prev.hub.plcs {
        assert Fits(name, prev.hub.plcs[name], ledger, clock);
        GoodThenEnd(cfg.historyCap, h, prev, out, name, OlderThan(now, cfg.cmdTtl), ExpiredEnding(cfg), now, ledger, clock);
      }
    }
  }

  lemma GoodDetach(cfg: Config, h: HubState, name: string, connId: nat, reason: Option<string>, now: nat, ledger: map<nat, Fate>, clock: nat)
    requires QueuesOk(h.plcs, h.nextCmdId, ledger, clock)
    ensures Good(cfg.historyCap, h, Detach(cfg, h, name, connId, reason, now), ledger, clock)
  {
    if name !in h.plcs || h.plcs[name].connId != connId || !h.plcs[name].connected {
      GoodQuiet(cfg.historyCap, h, ledger, clock);
    } else {
      assert PlcOk(name, h.plcs[name], ledger, clock);
      GoodEnd(cfg, h, name, Closed(h.plcs[name], reason), AllSent, LinkEnding(reason), now, ledger, clock);
    }
  }

  /** Every call of the hub loses no command, ends each at most once and hands out only queued ones. */
  lemma CallIsGood(cfg: Config, h: HubState, op: Op, now: nat, ledger: map<nat, Fate>, clock: nat)
    requires !op.OpDeliver? && !op.OpAdvance? && !op.OpSubmit?
    requires QueuesOk(h.plcs, h.nextCmdId, ledger, clock)
    ensures Good(cfg.historyCap, h, Call(cfg, h, op, now), ledger, clock)
  {
    match op
    case OpEnsure(name, mode, framing) => GoodLink(cfg, h, op, name, now, ledger, clock);
    case OpAttach(name, mode, kind, tx) => GoodLink(cfg, h, op, name, now, ledger, clock);
    case OpTouch(name) => GoodLink(cfg, h, op, name, now, ledger, clock);
    case OpReceived(name) =>
      if name in h.plcs { GoodLink(cfg, h, op, name, now, ledger, clock); } else { GoodQuiet(cfg.historyCap, h, ledger, clock); }
    case OpDetach(name, connId, reason) => GoodDetach(cfg, h, name, connId, reason, now, ledger, clock);
    case OpTake(name) => GoodTake(cfg.historyCap, h, name, now, ledger, clock);
    case OpCommandSent(name, id, seqNo) => GoodCommandSent(cfg.historyCap, h, name, id, seqNo, now, ledger, clock);
    case OpPop(name) => GoodPop(cfg.historyCap, h, name, now, ledger, clock);
    case OpFailed(name, id, err, http) => GoodEndId(cfg, h, name, id, Ending(Failed, Some(SendFailed(err)), None, None, http), now, ledger, clock);
    case OpCancel(name, id) => GoodEndId(cfg, h, name, id, Ending(Cancelled, Some(CancelledByApi), None, None, None), now, ledger, clock);
    case OpReply(name, msg, replyTo, http) => GoodReply(cfg, h, name, msg, replyTo, http, now, ledger, clock);
    case OpTick(order) => GoodTick(cfg, h, order, now, ledger, clock);
  }

  lemma GoodLink(cfg: Config, h: HubState, op: Op, name: string, now: nat, ledger: map<nat, Fate>, clock: nat)
    requires QueuesOk(h.plcs, h.nextCmdId, ledger, clock)
    requires op.OpEnsure? || op.OpAttach? || op.OpTouch? || (op.OpReceived? && name in h.plcs)
    requires name == op.name
    ensures Good(cfg.historyCap, h, Call(cfg, h, op, now), ledger, clock)
  {
    var out := Call(cfg, h, op, now);
    if name in h.plcs { assert PlcOk(name, h.plcs[name], ledger, clock); }
    GoodSame(cfg.historyCap, h, out, name, out.hub.plcs[name], ledger, clock);
  }

  lemma GoodReply(cfg: Config, h: HubState, name: string, m: Message, id: Option<nat>, http: Option<nat>, now: nat, ledger: map<nat, Fate>, clock: nat)
    requires QueuesOk(h.plcs, h.nextCmdId, ledger, clock)
    ensures Good(cfg.historyCap, h, Reply(cfg, h, name, m, id, http, now), ledger, clock)
  {
    GoodQuiet(cfg.historyCap, h, ledger, clock);
    match ReadReply(cfg, m, id.Some?, http)
    case None =>
    case Some((seqNo, e)) =>
      if name in h.plcs {
        var cmds := h.plcs[name].cmds;
        var i := FirstAnswered(cmds, seqNo, id);
        if i < |cmds| { GoodEndId(cfg, h, name, cmds[i].view.id, e, now, ledger, clock); }
      }
  }

  // ---------------------------------------------------------------- observing a good outcome

  lemma LiveCmdPhase(n: string, out: Outcome, k: nat, ledger: map<nat, Fate>, clock: nat)
    requires n in out.hub.plcs && Fits(n, out.hub.plcs[n], ledger, clock) && NotFinished(out.hub.plcs[n].cmds, out.finished)
    requires k < |out.hub.plcs[n].cmds|
    ensures CmdOk(n, out.hub.plcs[n].cmds[k], LedgerAfter(ledger, out), clock)
  {
    var cmds := out.hub.plcs[n].cmds;
    var c := cmds[k];
    assert FitsCmd(n, c, ledger, clock);
    if SentIn(out.hub, n, c.view.id) {
      var j :| 0 <= j < |cmds| && cmds[j].view.id == c.view.id && cmds[j].view.state == Sent;
      assert j == k;
    }
    forall v | v in out.finished ensures v.id != c.view.id {
      var j :| 0 <= j < |out.finished| && out.finished[j] == v;
    }
  }

  lemma ObserveQueues(cap: nat, h: HubState, out: Outcome, ledger: map<nat, Fate>, clock: nat)
    requires QueuesOk(h.plcs, h.nextCmdId, ledger, clock) && Good(cap, h, out, ledger, clock)
    ensures QueuesOk(out.hub.plcs, out.hub.nextCmdId, LedgerAfter(ledger, out), clock)
  {
    var ledger' := LedgerAfter(ledger, out);
    forall n | n in out.hub.plcs ensures PlcOk(n, out.hub.plcs[n], ledger', clock) {
      forall k: nat | k < |out.hub.plcs[n].cmds| ensures CmdOk(n, out.hub.plcs[n].cmds[k], ledger', clock) {
        LiveCmdPhase(n, out, k, ledger, clock);
      }
    }
    forall id | id in ledger' && LivePhase(ledger'[id].phase)
      ensures ledger'[id].plc in out.hub.plcs && HasId(out.hub.plcs[ledger'[id].plc].cmds, id)
    {
      StillThere(h, out, id, ledger, clock);
    }
  }

  lemma StillThere(h: HubState, out: Outcome, id: nat, ledger: map<nat, Fate>, clock: nat)
    requires QueuesOk(h.plcs, h.nextCmdId, ledger, clock) && NoneLost(h.plcs, out.hub.plcs, out.finished)
    requires id in ledger && LivePhase(PhaseAfter(ledger[id], id, out))
    ensures ledger[id].plc in out.hub.plcs && HasId(out.hub.plcs[ledger[id].plc].cmds, id)
  {
    var n := ledger[id].plc;
    var k :| 0 <= k < |h.plcs[n].cmds| && h.plcs[n].cmds[k].view.id == id;
    FinishesIff(out.finished, id);
  }

  lemma FinishesIff(finished: seq<CmdView>, id: nat)
    ensures Finishes(finished, id) <==> exists v | v in finished :: v.id == id
  {
    if v :| v in finished && v.id == id {
      var j :| 0 <= j < |finished| && finished[j] == v;
    }
  }

  // ---------------------------------------------------------------- what is recorded

  predicate HasView(views: seq<CmdView>, id: nat) {
    exists i :: 0 <= i < |views| && views[i].id == id
  }

  /** Every command that ended is recorded once, with its final state; nothing else is. */
  predicate RecordsOk(recorded: seq<CmdView>, ledger: map<nat, Fate>) {
    && (forall i, j | 0 <= i < j < |recorded| :: recorded[i].id != recorded[j].id)
    && (forall i | 0 <= i < |recorded| ::
          && recorded[i].id in ledger && ledger[recorded[i].id] == Fate(recorded[i].plc, Over(recorded[i].state))
          && Terminal(recorded[i].state))
    && (forall id | id in ledger && ledger[id].phase.Over? :: HasView(recorded, id))
  }

  lemma PhaseOfFinished(out: Outcome, j: nat, ledger: map<nat, Fate>)
    requires j < |out.finished| && FinishedOk(out.finished, ledger)
    ensures out.finished[j].id in LedgerAfter(ledger, out)
    ensures LedgerAfter(ledger, out)[out.finished[j].id] == Fate(out.finished[j].plc, Over(out.finished[j].state))
  {
    assert out.finished[j] in out.finished;
  }

  lemma ObserveRecords(out: Outcome, recorded: seq<CmdView>, ledger: map<nat, Fate>)
    requires RecordsOk(recorded, ledger) && FinishedOk(out.finished, ledger)
    ensures RecordsOk(recorded + out.finished, LedgerAfter(ledger, out))
  {
    var ledger', all := LedgerAfter(ledger, out), recorded + out.finished;
    forall i | 0 <= i < |all|
      ensures all[i].id in ledger' && ledger'[all[i].id] == Fate(all[i].plc, Over(all[i].state)) && Terminal(all[i].state)
    {
      if i >= |recorded| { PhaseOfFinished(out, i - |recorded|, ledger); } else { RecordedStays(out, recorded, i, ledger); }
    }
    forall i, j | 0 <= i < j < |all| ensures all[i].id != all[j].id {
      if i < |recorded| <= j { assert ledger[out.finished[j - |recorded|].id].phase != ledger[recorded[i].id].phase; }
    }
    forall id | id in ledger' && ledger'[id].phase.Over? ensures HasView(all, id) {
      if ledger[id].phase.Over? {
        var i :| 0 <= i < |recorded| && recorded[i].id == id;
        assert all[i].id == id;
      } else {
        var v :| v in out.finished && v.id == id;
        var j :| 0 <= j < |out.finished| && out.finished[j] == v;
        assert all[|recorded| + j].id == id;
      }
    }
  }

  lemma RecordedStays(out: Outcome, recorded: seq<CmdView>, i: nat, ledger: map<nat, Fate>)
    requires RecordsOk(recorded, ledger) && FinishedOk(out.finished, ledger) && i < |recorded|
    ensures recorded[i].id in LedgerAfter(ledger, out) && LedgerAfter(ledger, out)[recorded[i].id] == ledger[recorded[i].id]
  {
    forall v | v in out.finished ensures v.id != recorded[i].id {
      var j :| 0 <= j < |out.finished| && out.finished[j] == v;
      assert LivePhase(ledger[out.finished[j].id].phase);
    }
  }

  // ---------------------------------------------------------------- history

  /** Every PLC's history is the end of what was recorded for it. */
  predicate HistoryOk(cap: nat, plcs: map<string, Plc>, recorded: seq<CmdView>) {
    && (forall n | n in plcs :: plcs[n].history == LastN(OfPlc(recorded, n), cap))
    && (forall i | 0 <= i < |recorded| :: recorded[i].plc in plcs)
  }

  lemma {:induction false} OfUnknownPlc(views: seq<CmdView>, name: string)
    requires forall i | 0 <= i < |views| :: views[i].plc != name
    ensures OfPlc(views, name) == []
  {
    if views != [] { OfUnknownPlc(views[..|views| - 1], name); }
  }

  lemma RecordIsLast(past: seq<CmdView>, more: seq<CmdView>, cap: nat)
    ensures Record(LastN(past, cap), more, cap) == LastN(past + more, cap)
  {
    if more == [] { assert past + more == past; } else { LastNConcat(past, more, cap); }
  }

  lemma ObserveHistory(cap: nat, plcs: map<string, Plc>, plcs': map<string, Plc>, recorded: seq<CmdView>, finished: seq<CmdView>)
    requires HistoryOk(cap, plcs, recorded) && HistoriesOk(cap, plcs, plcs', finished) && plcs.Keys <= plcs'.Keys
    requires forall j | 0 <= j < |finished| :: finished[j].plc in plcs
    ensures HistoryOk(cap, plcs', recorded + finished)
  {
    forall n | n in plcs' ensures plcs'[n].history == LastN(OfPlc(recorded + finished, n), cap) {
      OfPlcConcat(recorded, finished, n);
      RecordIsLast(OfPlc(recorded, n), OfPlc(finished, n), cap);
      if n !in plcs { OfUnknownPlc(recorded, n); }
    }
    var all := recorded + finished;
    forall i | 0 <= i < |all| ensures all[i].plc in plcs' {
      assert i >= |recorded| ==> all[i] == finished[i - |recorded|];
    }
  }

  // ---------------------------------------------------------------- handing out

  /** No id is handed out twice, and an id that was handed out is not queued any more. */
  predicate HandingOk(handed: seq<nat>, ledger: map<nat, Fate>) {
    && (forall i, j | 0 <= i < j < |handed| :: handed[i] != handed[j])
    && forall i | 0 <= i < |handed| :: handed[i] in ledger && (ledger[handed[i]].phase == InFlight || ledger[handed[i]].phase.Over?)
  }

  lemma ObserveHanding(out: Outcome, handed: seq<nat>, ledger: map<nat, Fate>)
    requires HandingOk(handed, ledger) && HandedOk(out.hub, out.handed, ledger)
    ensures HandingOk(handed + out.handed, LedgerAfter(ledger, out))
  {
    var all := handed + out.handed;
    forall i, j | 0 <= i < j < |all| ensures all[i] != all[j] {
      if i < |handed| <= j { assert ledger[out.handed[j - |handed|]].phase == Waiting; }
    }
  }
}
