/** What holds of the hub in every run: where each command is, how often it is handed out, recorded and answered, and how
    connections come and go. */
module HubSafety {
  import opened Wrappers
  import opened HubSpec
  import opened HubRuns
  import opened HubInvariant

  // ---------------------------------------------------------------- waiters

  predicate Pending(batches: seq<seq<CmdView>>, id: nat) {
    exists b :: 0 <= b < |batches| && HasView(batches[b], id)
  }

  function AnswerIds(answers: seq<CmdView>): set<nat> {
    set i | 0 <= i < |answers| :: answers[i].id
  }

  predicate DistinctIds(views: seq<CmdView>) {
    forall i, j | 0 <= i < j < |views| :: views[i].id != views[j].id
  }

  /** A registered waiter belongs to a live command or to one that ended and is not delivered yet; the other registered
      ids have been answered, once, with the recorded view. */
  ghost predicate WaitersOk(w: World) {
    && OneEach(w.hub.waiters)
    && (forall id | id in w.hub.waiters :: id in w.ledger && (LivePhase(w.ledger[id].phase) || Pending(w.undelivered, id)))
    && (forall b, j | 0 <= b < |w.undelivered| && 0 <= j < |w.undelivered[b]| :: w.undelivered[b][j] in w.recorded)
    && DistinctIds(w.answers)
    && (forall i | 0 <= i < |w.answers| :: w.answers[i] in w.recorded && w.answers[i].id !in w.hub.waiters)
    && w.registered == w.hub.waiters.Keys + AnswerIds(w.answers)
  }

  predicate OneEach(waiters: map<nat, nat>) {
    forall id | id in waiters :: waiters[id] == 1
  }

  lemma AnswersForCons(waiters: map<nat, nat>, v: CmdView, rest: seq<CmdView>)
    requires OneEach(waiters)
    ensures OneEach(waiters - {v.id})
    ensures AnswersFor(waiters, [v] + rest)
         == if v.id in waiters then [v] + AnswersFor(waiters - {v.id}, rest) else AnswersFor(waiters, rest)
  {
    assert ([v] + rest)[1..] == rest;
    assert Repeat(v, 1) == [v];
  }

  lemma {:induction false} AnswersForMembers(waiters: map<nat, nat>, views: seq<CmdView>)
    requires OneEach(waiters)
    ensures forall v | v in AnswersFor(waiters, views) :: v in views && v.id in waiters
    decreases |views|
  {
    if views != [] {
      var v, rest := views[0], views[1..];
      assert views == [v] + rest;
      AnswersForCons(waiters, v, rest);
      AnswersForMembers(if v.id in waiters then waiters - {v.id} else waiters, rest);
    }
  }

  lemma DistinctCons(v: CmdView, more: seq<CmdView>)
    requires DistinctIds(more) && forall u | u in more :: u.id != v.id
    ensures DistinctIds([v] + more) && AnswerIds([v] + more) == {v.id} + AnswerIds(more)
  {
    var all := [v] + more;
    assert all[0] == v && forall i | 0 <= i < |more| :: more[i] == all[i + 1];
    forall id | id in {v.id} + AnswerIds(more) ensures id in AnswerIds(all) {
      if id != v.id {
        var i :| 0 <= i < |more| && more[i].id == id;
        assert all[i + 1].id == id;
      }
    }
  }

  lemma {:induction false} AnswersForOk(waiters: map<nat, nat>, views: seq<CmdView>)
    requires OneEach(waiters)
    ensures DistinctIds(AnswersFor(waiters, views))
    ensures AnswerIds(AnswersFor(waiters, views)) == waiters.Keys * ViewIds(views)
    decreases |views|
  {
    if views != [] {
      var v, rest := views[0], views[1..];
      assert views == [v] + rest;
      assert ViewIds(views) == {v.id} + ViewIds(rest);
      AnswersForCons(waiters, v, rest);
      if v.id in waiters {
        AnswersForMembers(waiters - {v.id}, rest);
        AnswersForOk(waiters - {v.id}, rest);
        DistinctCons(v, AnswersFor(waiters - {v.id}, rest));
        assert waiters.Keys * ViewIds(views) == {v.id} + (waiters - {v.id}).Keys * ViewIds(rest);
      } else {
        AnswersForOk(waiters, rest);
        assert waiters.Keys * ViewIds(views) == waiters.Keys * ViewIds(rest);
      }
    }
  }

  lemma AnswerIdsConcat(a: seq<CmdView>, b: seq<CmdView>)
    ensures AnswerIds(a + b) == AnswerIds(a) + AnswerIds(b)
  {
    forall id | id in AnswerIds(b) ensures id in AnswerIds(a + b) {
      var i :| 0 <= i < |b| && b[i].id == id;
      assert (a + b)[|a| + i].id == id;
    }
    forall id | id in AnswerIds(a) ensures id in AnswerIds(a + b) {
      var i :| 0 <= i < |a| && a[i].id == id;
      assert (a + b)[i].id == id;
    }
  }

  /** The new answers are recorded views of ids that wait no longer. */
  lemma NewAnswers(w: World, batch: seq<CmdView>)
    requires WaitersOk(w) && forall v | v in batch :: v in w.recorded
    ensures var sent := AnswersFor(w.hub.waiters, batch);
      && (forall i | 0 <= i < |sent| :: sent[i] in w.recorded && sent[i].id in w.hub.waiters && sent[i].id in ViewIds(batch))
      && DistinctIds(w.answers + sent)
      && AnswerIds(w.answers + sent) == AnswerIds(w.answers) + w.hub.waiters.Keys * ViewIds(batch)
  {
    var sent := AnswersFor(w.hub.waiters, batch);
    var all := w.answers + sent;
    AnswersForOk(w.hub.waiters, batch);
    AnswersForMembers(w.hub.waiters, batch);
    AnswerIdsConcat(w.answers, sent);
    assert forall i | 0 <= i < |sent| :: sent[i] in sent;
    forall i, j | 0 <= i < j < |all| ensures all[i].id != all[j].id {
      if i < |w.answers| <= j { assert sent[j - |w.answers|].id in w.hub.waiters; }
    }
  }

  lemma BatchRecorded(w: World, b: nat)
    requires WaitersOk(w) && b < |w.undelivered|
    ensures forall v | v in w.undelivered[b] :: v in w.recorded
    ensures var rest := w.undelivered[..b] + w.undelivered[b + 1..];
      forall c, j | 0 <= c < |rest| && 0 <= j < |rest[c]| :: rest[c][j] in w.recorded
  {
    var batch, rest := w.undelivered[b], w.undelivered[..b] + w.undelivered[b + 1..];
    forall v | v in batch ensures v in w.recorded {
      var j :| 0 <= j < |batch| && batch[j] == v;
      assert w.undelivered[b][j] in w.recorded;
    }
    forall c, j | 0 <= c < |rest| && 0 <= j < |rest[c]| ensures rest[c][j] in w.recorded {
      var d := if c < b then c else c + 1;
      assert rest[c] == w.undelivered[d];
      assert w.undelivered[d][j] in w.recorded;
    }
  }

  lemma DeliverKeepsWaiters(cfg: Config, w: World, b: nat)
    requires WaitersOk(w)
    ensures WaitersOk(Apply(cfg, w, OpDeliver(b)))
  {
    if b < |w.undelivered| {
      var w', batch := Apply(cfg, w, OpDeliver(b)), w.undelivered[b];
      BatchRecorded(w, b);
      NewAnswers(w, batch);
      forall id | id in w'.hub.waiters ensures LivePhase(w.ledger[id].phase) || Pending(w'.undelivered, id) {
        if Pending(w.undelivered, id) { StillPending(w.undelivered, b, id); }
      }
      assert w.hub.waiters.Keys == w'.hub.waiters.Keys + w.hub.waiters.Keys * ViewIds(batch);
      assert w'.answers == w.answers + AnswersFor(w.hub.waiters, batch);
      forall i | 0 <= i < |w'.answers| ensures w'.answers[i] in w.recorded && w'.answers[i].id !in w'.hub.waiters {
        if i >= |w.answers| { assert w'.answers[i] == AnswersFor(w.hub.waiters, batch)[i - |w.answers|]; }
      }
    }
  }

  lemma StillPending(batches: seq<seq<CmdView>>, b: nat, id: nat)
    requires b < |batches| && Pending(batches, id) && id !in ViewIds(batches[b])
    ensures Pending(batches[..b] + batches[b + 1..], id)
  {
    var rest := batches[..b] + batches[b + 1..];
    var c :| 0 <= c < |batches| && HasView(batches[c], id);
    var i :| 0 <= i < |batches[c]| && batches[c][i].id == id;
    assert batches[c][i] in batches[c];
    assert c != b;
    assert rest[if c < b then c else c - 1] == batches[c];
  }

  /** A call other than `submit` puts what it ended into a new batch. */
  lemma CallKeepsWaiters(w: World, w': World, out: Outcome)
    requires WaitersOk(w) && out.hub.waiters == w.hub.waiters
    requires w' == w.(hub := out.hub, ledger := LedgerAfter(w.ledger, out), recorded := w.recorded + out.finished, handed := w.handed + out.handed,
                      undelivered := if out.finished == [] then w.undelivered else w.undelivered + [out.finished])
    ensures WaitersOk(w')
  {
    forall id | id in w'.hub.waiters ensures id in w'.ledger && (LivePhase(w'.ledger[id].phase) || Pending(w'.undelivered, id)) {
      WaiterStays(w, w', out, id);
    }
    forall b, j | 0 <= b < |w'.undelivered| && 0 <= j < |w'.undelivered[b]| ensures w'.undelivered[b][j] in w'.recorded {
      BatchStays(w, w', out, b, j);
    }
    forall i | 0 <= i < |w.answers| ensures w.answers[i] in w'.recorded { assert w.answers[i] in w.recorded; }
  }

  lemma BatchStays(w: World, w': World, out: Outcome, b: nat, j: nat)
    requires WaitersOk(w) && w'.recorded == w.recorded + out.finished
    requires w'.undelivered == if out.finished == [] then w.undelivered else w.undelivered + [out.finished]
    requires b < |w'.undelivered| && j < |w'.undelivered[b]|
    ensures w'.undelivered[b][j] in w'.recorded
  {
    if b < |w.undelivered| { assert w.undelivered[b][j] in w.recorded; } else { assert w'.undelivered[b] == out.finished; }
  }

  lemma WaiterStays(w: World, w': World, out: Outcome, id: nat)
    requires WaitersOk(w) && id in w.hub.waiters
    requires w'.ledger == LedgerAfter(w.ledger, out)
    requires w'.undelivered == if out.finished == [] then w.undelivered else w.undelivered + [out.finished]
    ensures id in w'.ledger && (LivePhase(w'.ledger[id].phase) || Pending(w'.undelivered, id))
  {
    if Pending(w.undelivered, id) {
      var b :| 0 <= b < |w.undelivered| && HasView(w.undelivered[b], id);
      assert w'.undelivered[b] == w.undelivered[b];
    } else if exists v | v in out.finished :: v.id == id {
      var v :| v in out.finished && v.id == id;
      var j :| 0 <= j < |out.finished| && out.finished[j] == v;
      assert HasView(out.finished, id);
      assert w'.undelivered[|w.undelivered|] == out.finished;
    }
  }

  // ---------------------------------------------------------------- the whole invariant

  ghost predicate Inv(cap: nat, w: World) {
    && QueuesOk(w.hub.plcs, w.hub.nextCmdId, w.ledger, w.clock)
    && RecordsOk(w.recorded, w.ledger)
    && HistoryOk(cap, w.hub.plcs, w.recorded)
    && HandingOk(w.handed, w.ledger)
    && WaitersOk(w)
  }

  lemma CallKeepsInv(cfg: Config, w: World, op: Op)
    requires Inv(cfg.historyCap, w) && !op.OpDeliver? && !op.OpAdvance? && !op.OpSubmit?
    ensures Inv(cfg.historyCap, Apply(cfg, w, op))
  {
    var out, w' := Call(cfg, w.hub, op, w.clock), Apply(cfg, w, op);
    CallIsGood(cfg, w.hub, op, w.clock, w.ledger, w.clock);
    ObserveQueues(cfg.historyCap, w.hub, out, w.ledger, w.clock);
    ObserveRecords(out, w.recorded, w.ledger);
    ObserveHistory(cfg.historyCap, w.hub.plcs, out.hub.plcs, w.recorded, out.finished);
    ObserveHanding(out, w.handed, w.ledger);
    CallKeepsWaiters(w, w', out);
  }

  lemma AdvanceKeepsInv(cfg: Config, w: World, ticks: nat)
    requires Inv(cfg.historyCap, w)
    ensures Inv(cfg.historyCap, Apply(cfg, w, OpAdvance(ticks)))
  {
    forall n | n in w.hub.plcs ensures PlcOk(n, w.hub.plcs[n], w.ledger, w.clock + ticks) {
      assert forall k | 0 <= k < |w.hub.plcs[n].cmds| :: CmdOk(n, w.hub.plcs[n].cmds[k], w.ledger, w.clock);
    }
  }

  // ---------------------------------------------------------------- submit

  /** A ledger with one more id. */
  predicate OneMore(ledger: map<nat, Fate>, ledger': map<nat, Fate>, id: nat) {
    && id !in ledger && ledger'.Keys == ledger.Keys + {id} && (forall i | i in ledger :: ledger'[i] == ledger[i])
  }

  lemma OldPlcOk(name: string, st: Plc, ledger: map<nat, Fate>, ledger': map<nat, Fate>, id: nat, clock: nat)
    requires PlcOk(name, st, ledger, clock) && OneMore(ledger, ledger', id)
    ensures PlcOk(name, st, ledger', clock)
  {
    forall k | 0 <= k < |st.cmds| ensures CmdOk(name, st.cmds[k], ledger', clock) {
      assert CmdOk(name, st.cmds[k], ledger, clock);
    }
  }

  lemma AppendedOk(name: string, st: Plc, c: Cmd, ledger: map<nat, Fate>, ledger': map<nat, Fate>, next: nat, clock: nat)
    requires PlcOk(name, st, ledger, clock) && OneMore(ledger, ledger', next + 1) && forall i | i in ledger :: i <= next
    requires c.view.id == next + 1 && CmdOk(name, c, ledger', clock)
    ensures PlcOk(name, st.(cmds := st.cmds + [c]), ledger', clock)
  {
    OldPlcOk(name, st, ledger, ledger', next + 1, clock);
    var cmds := st.cmds + [c];
    forall j, k | 0 <= j < k < |cmds| ensures cmds[j].view.id < cmds[k].view.id {
      assert CmdOk(name, st.cmds[j], ledger, clock);
    }
    forall k | 0 <= k < |cmds| ensures CmdOk(name, cmds[k], ledger', clock) {
      if k < |st.cmds| { assert CmdOk(name, st.cmds[k], ledger', clock); }
    }
  }

  lemma SubmitKeepsQueues(h: HubState, name: string, c: Cmd, ledger: map<nat, Fate>, ledger': map<nat, Fate>, clock: nat)
    requires QueuesOk(h.plcs, h.nextCmdId, ledger, clock) && OneMore(ledger, ledger', h.nextCmdId + 1)
    requires c.view.id == h.nextCmdId + 1 && CmdOk(name, c, ledger', clock)
    ensures var st := PlcOr(h, name, Active);
      QueuesOk(h.plcs[name := st.(cmds := st.cmds + [c])], h.nextCmdId + 1, ledger', clock)
  {
    var st := PlcOr(h, name, Active);
    var plcs' := h.plcs[name := st.(cmds := st.cmds + [c])];
    assert PlcOk(name, st, ledger, clock);
    AppendedOk(name, st, c, ledger, ledger', h.nextCmdId, clock);
    forall n | n in plcs' ensures PlcOk(n, plcs'[n], ledger', clock) {
      if n != name { OldPlcOk(n, h.plcs[n], ledger, ledger', h.nextCmdId + 1, clock); }
    }
    forall id | id in ledger' && LivePhase(ledger'[id].phase) ensures ledger'[id].plc in plcs' && HasId(plcs'[ledger'[id].plc].cmds, id) {
      if id == h.nextCmdId + 1 {
        assert plcs'[name].cmds[|st.cmds|].view.id == id;
      } else {
        var n := ledger[id].plc;
        var k :| 0 <= k < |h.plcs[n].cmds| && h.plcs[n].cmds[k].view.id == id;
        assert plcs'[n].cmds[k] == h.plcs[n].cmds[k];
      }
    }
  }

  lemma RefuseKeepsQueues(h: HubState, ledger: map<nat, Fate>, ledger': map<nat, Fate>, clock: nat)
    requires QueuesOk(h.plcs, h.nextCmdId, ledger, clock) && OneMore(ledger, ledger', h.nextCmdId + 1)
    requires ledger'[h.nextCmdId + 1].phase == NeverAccepted
    ensures QueuesOk(h.plcs, h.nextCmdId + 1, ledger', clock)
  {
    forall n | n in h.plcs ensures PlcOk(n, h.plcs[n], ledger', clock) { OldPlcOk(n, h.plcs[n], ledger, ledger', h.nextCmdId + 1, clock); }
  }

  lemma NewPlcHistory(cap: nat, h: HubState, name: string, recorded: seq<CmdView>, st': Plc)
    requires HistoryOk(cap, h.plcs, recorded) && st'.history == PlcOr(h, name, Active).history
    ensures HistoryOk(cap, h.plcs[name := st'], recorded)
  {
    if name !in h.plcs { OfUnknownPlc(recorded, name); }
  }

  lemma OneMoreRecords(recorded: seq<CmdView>, handed: seq<nat>, ledger: map<nat, Fate>, ledger': map<nat, Fate>, id: nat)
    requires RecordsOk(recorded, ledger) && HandingOk(handed, ledger) && OneMore(ledger, ledger', id) && !ledger'[id].phase.Over?
    ensures RecordsOk(recorded, ledger')
    ensures HandingOk(handed, ledger') && (ledger'[id].phase == InFlight ==> HandingOk(handed + [id], ledger'))
  {
    forall i | i in ledger' && ledger'[i].phase.Over? ensures HasView(recorded, i) { assert ledger[i].phase.Over?; }
  }

  /** What an accepted submission changes. */
  predicate Accepts(w: World, w': World, name: string, c: Cmd, wait: bool) {
    var id, st := w.hub.nextCmdId + 1, PlcOr(w.hub, name, Active);
    && w'.ledger == w.ledger[id := Fate(name, if c.view.state == Sent then InFlight else Waiting)]
    && w'.hub.plcs == w.hub.plcs[name := st.(cmds := st.cmds + [c])] && w'.hub.nextCmdId == id
    && w'.hub.waiters == (if wait then w.hub.waiters[id := 1] else w.hub.waiters)
    && w'.handed == (if c.view.state == Sent then w.handed + [id] else w.handed)
    && w'.registered == (if wait then w.registered + {id} else w.registered)
    && w'.undelivered == w.undelivered && w'.recorded == w.recorded && w'.answers == w.answers && w'.clock == w.clock
  }

  /** What a submission to a link that is down changes: the id is used up. */
  predicate Refuses(w: World, w': World, name: string) {
    var id := w.hub.nextCmdId + 1;
    w' == w.(hub := w.hub.(nextCmdId := id), ledger := w.ledger[id := Fate(name, NeverAccepted)])
  }

  lemma RefusedKeepsInv(cap: nat, w: World, w': World, name: string)
    requires Inv(cap, w) && Refuses(w, w', name)
    ensures Inv(cap, w')
  {
    RefuseKeepsQueues(w.hub, w.ledger, w'.ledger, w.clock);
    OneMoreRecords(w.recorded, w.handed, w.ledger, w'.ledger, w.hub.nextCmdId + 1);
    AdmitKeepsWaiters(w, w', w.hub.nextCmdId + 1, false);
  }

  lemma AcceptedKeepsInv(cap: nat, w: World, w': World, name: string, msg: Message, sentNow: bool, wait: bool)
    requires Inv(cap, w) && Accepts(w, w', name, NewCmd(w.hub.nextCmdId + 1, name, msg, sentNow, w.clock), wait)
    ensures Inv(cap, w')
  {
    var c := NewCmd(w.hub.nextCmdId + 1, name, msg, sentNow, w.clock);
    assert OneMore(w.ledger, w'.ledger, c.view.id);
    assert CmdOk(name, c, w'.ledger, w.clock);
    SubmitKeepsQueues(w.hub, name, c, w.ledger, w'.ledger, w.clock);
    OneMoreRecords(w.recorded, w.handed, w.ledger, w'.ledger, c.view.id);
    NewPlcHistory(cap, w.hub, name, w.recorded, w'.hub.plcs[name]);
    AdmitKeepsWaiters(w, w', c.view.id, wait);
  }

  /** A submission is accepted, refused with a used-up id, or changes nothing. */
  lemma SubmitShape(cfg: Config, w: World, name: string, msg: Message, queue: bool, wait: bool, accepts: bool)
    requires w.hub.nextCmdId + 1 !in w.hub.waiters
    ensures var w' := Apply(cfg, w, OpSubmit(name, msg, queue, wait, accepts));
      || w' == w
      || Refuses(w, w', name)
      || Accepts(w, w', name, NewCmd(w.hub.nextCmdId + 1, name, msg, LiveLink(PlcOr(w.hub, name, Active)) && accepts, w.clock), wait)
  {
    assert w.handed + [] == w.handed;
  }

  lemma FreshId(cap: nat, w: World)
    requires Inv(cap, w)
    ensures w.hub.nextCmdId + 1 !in w.ledger && w.hub.nextCmdId + 1 !in w.hub.waiters
  {
  }

  lemma SubmitKeepsInv(cfg: Config, w: World, name: string, msg: Message, queue: bool, wait: bool, accepts: bool)
    requires Inv(cfg.historyCap, w)
    ensures Inv(cfg.historyCap, Apply(cfg, w, OpSubmit(name, msg, queue, wait, accepts)))
  {
    var w' := Apply(cfg, w, OpSubmit(name, msg, queue, wait, accepts));
    FreshId(cfg.historyCap, w);
    SubmitShape(cfg, w, name, msg, queue, wait, accepts);
    ShapeKeepsInv(cfg.historyCap, w, w', name, msg, LiveLink(PlcOr(w.hub, name, Active)) && accepts, wait);
  }

  lemma ShapeKeepsInv(cap: nat, w: World, w': World, name: string, msg: Message, sentNow: bool, wait: bool)
    requires Inv(cap, w)
    requires w' == w || Refuses(w, w', name) || Accepts(w, w', name, NewCmd(w.hub.nextCmdId + 1, name, msg, sentNow, w.clock), wait)
    ensures Inv(cap, w')
  {
    if Refuses(w, w', name) {
      RefusedKeepsInv(cap, w, w', name);
    } else if w' != w {
      AcceptedKeepsInv(cap, w, w', name, msg, sentNow, wait);
    }
  }

  lemma AdmitKeepsWaiters(w: World, w': World, id: nat, wait: bool)
    requires WaitersOk(w) && OneMore(w.ledger, w'.ledger, id) && RecordsOk(w.recorded, w.ledger)
    requires w'.hub.waiters == if wait then w.hub.waiters[id := 1] else w.hub.waiters
    requires wait ==> LivePhase(w'.ledger[id].phase)
    requires w'.registered == if wait then w.registered + {id} else w.registered
    requires w'.undelivered == w.undelivered && w'.recorded == w.recorded && w'.answers == w.answers
    ensures WaitersOk(w')
  {
    forall i | 0 <= i < |w.answers| ensures w.answers[i].id != id {
      assert w.answers[i] in w.recorded;
      var j :| 0 <= j < |w.recorded| && w.recorded[j] == w.answers[i];
    }
  }

  lemma DeliverKeepsInv(cfg: Config, w: World, b: nat, w': World)
    requires Inv(cfg.historyCap, w) && w' == Apply(cfg, w, OpDeliver(b))
    ensures Inv(cfg.historyCap, w')
  {
    DeliverKeepsWaiters(cfg, w, b);
    OnlyDelivered(cfg, w, b);
  }

  lemma OnlyDelivered(cfg: Config, w: World, b: nat)
    ensures var w' := Apply(cfg, w, OpDeliver(b));
      && w'.hub.plcs == w.hub.plcs && w'.hub.nextCmdId == w.hub.nextCmdId && w'.ledger == w.ledger && w'.clock == w.clock
      && w'.recorded == w.recorded && w'.handed == w.handed
  {
  }

  lemma StepKeepsInv(cfg: Config, w: World, op: Op)
    requires Inv(cfg.historyCap, w)
    ensures Inv(cfg.historyCap, Apply(cfg, w, op))
  {
    if op.OpDeliver? {
      DeliverKeepsInv(cfg, w, op.batch, Apply(cfg, w, op));
    } else if op.OpAdvance? {
      AdvanceKeepsInv(cfg, w, op.ticks);
    } else if op.OpSubmit? {
      SubmitKeepsInv(cfg, w, op.name, op.msg, op.queue, op.wait, op.accepts);
    } else {
      CallKeepsInv(cfg, w, op);
    }
  }

  lemma {:induction false} RunKeepsInv(cfg: Config, ops: seq<Op>)
    ensures Inv(cfg.historyCap, Run(cfg, START, ops))
  {
    if ops != [] {
      RunKeepsInv(cfg, ops[..|ops| - 1]);
      StepKeepsInv(cfg, Run(cfg, START, ops[..|ops| - 1]), ops[|ops| - 1]);
    }
  }
}
