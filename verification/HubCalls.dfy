/** What calls of the hub mean to their callers over time: `apps/plc-link-server/src/hub.rs`. */
module HubCalls {
  import opened Wrappers
  import opened HubSpec
  import opened HubRuns
  import opened LinkHub
  import opened HubSafety
  import opened HubTheorems

  // ---------------------------------------------------------------- polling

  /** The ids that polls at these times hand out, and the hub after them. */
  function Polls(h: HubState, name: string, times: seq<nat>): (seq<nat>, HubState) {
    if times == [] then ([], h)
    else
      var (ids, now) := Polls(h, name, times[..|times| - 1]);
      var out := PopHttp(now, name, times[|times| - 1]).1;
      (ids + out.handed, out.hub)
  }

  /** Sending the first queued command takes it off the front of the queued ones. */
  lemma {:induction false} FirstTaken(cmds: seq<Cmd>, c: Cmd)
    requires First(cmds, AllQueued) < |cmds| && !Picked(AllQueued, c)
    ensures Take(cmds, AllQueued) == [cmds[First(cmds, AllQueued)]] + Take(cmds[First(cmds, AllQueued) := c], AllQueued)
  {
    var i := First(cmds, AllQueued);
    if i == 0 {
      assert cmds[0 := c][1..] == cmds[1..];
    } else {
      FirstTaken(cmds[1..], c);
      assert cmds[i := c][1..] == cmds[1..][i - 1 := c] && cmds[i := c][0] == cmds[0];
    }
  }

  lemma PollOnce(h: HubState, name: string, now: nat)
    requires name in h.plcs
    ensures var out, queued := PopHttp(h, name, now).1, Take(h.plcs[name].cmds, AllQueued);
      && name in out.hub.plcs
      && (queued == [] ==> out.handed == [] && Take(out.hub.plcs[name].cmds, AllQueued) == [])
      && (queued != [] ==> out.handed == [queued[0].view.id] && Take(out.hub.plcs[name].cmds, AllQueued) == queued[1..])
  {
    var cmds := h.plcs[name].cmds;
    var i := First(cmds, AllQueued);
    if i == |cmds| {
      NoneLeft(cmds, AllQueued);
    } else {
      FirstTaken(cmds, PopHttp(h, name, now).1.hub.plcs[name].cmds[i]);
    }
  }

  lemma OneMoreId(cmds: seq<Cmd>, n: nat)
    requires n < |cmds|
    ensures Ids(cmds[..n + 1]) == Ids(cmds[..n]) + [cmds[n].view.id] && cmds[n..][1..] == cmds[n + 1..] && cmds[n..][0] == cmds[n]
  {
  }

  /** Polling hands the queued commands out one by one, in the order in which they were submitted, until none is left. */
  lemma {:induction false} PollsInOrder(h: HubState, name: string, times: seq<nat>)
    requires name in h.plcs
    ensures var (ids, h') := Polls(h, name, times);
      var queued := Take(h.plcs[name].cmds, AllQueued);
      var n := if |times| <= |queued| then |times| else |queued|;
      && name in h'.plcs && ids == Ids(queued[..n]) && Take(h'.plcs[name].cmds, AllQueued) == queued[n..]
  {
    if times != [] {
      var front, last := times[..|times| - 1], times[|times| - 1];
      PollsInOrder(h, name, front);
      PollOnce(Polls(h, name, front).1, name, last);
      if |front| < |Take(h.plcs[name].cmds, AllQueued)| { OneMoreId(Take(h.plcs[name].cmds, AllQueued), |front|); }
    }
  }

  // ---------------------------------------------------------------- a submission, for good

  lemma {:induction false} RegisteredStays(cfg: Config, ops: seq<Op>, more: seq<Op>, id: nat)
    requires id in Run(cfg, START, ops).registered
    ensures id in Run(cfg, START, ops + more).registered
    decreases |more|
  {
    if more == [] {
      assert ops + more == ops;
    } else {
      var front, last := more[..|more| - 1], more[|more| - 1];
      RegisteredStays(cfg, ops, front, id);
      assert ops + more == ops + front + [last];
      RunSnoc(cfg, START, ops + front, last);
      RegisteredKept(cfg, Run(cfg, START, ops + front), last);
    }
  }

  lemma RegisteredKept(cfg: Config, w: World, op: Op)
    ensures w.registered <= Apply(cfg, w, op).registered
  {
  }

  /** The submission is accepted in this state. */
  predicate Accepted(w: World, op: Op)
    requires op.OpSubmit?
  {
    Submit(w.hub, op.name, op.msg, op.queue, op.wait, op.accepts, w.clock).0.Ok?
  }

  /** The command stands under this id. */
  predicate SubmittedAs(w: World, op: Op, id: nat)
    requires op.OpSubmit?
  {
    id in w.ledger && w.ledger[id].plc == op.name && LivePhase(w.ledger[id].phase) && (op.wait ==> id in w.registered)
  }

  lemma SubmitObserved(cfg: Config, w: World, op: Op)
    requires op.OpSubmit? && w.hub.nextCmdId + 1 !in w.ledger && Accepted(w, op)
    ensures SubmittedAs(Apply(cfg, w, op), op, w.hub.nextCmdId + 1)
  {
  }

  lemma FreshRunId(cfg: Config, ops: seq<Op>)
    ensures Run(cfg, START, ops).hub.nextCmdId + 1 !in Run(cfg, START, ops).ledger
  {
    RunKeepsInv(cfg, ops);
    FreshId(cfg.historyCap, Run(cfg, START, ops));
  }

  lemma SubmittedNow(cfg: Config, op: Op, w: World, w': World)
    requires w' == Apply(cfg, w, op) && op.OpSubmit? && Accepted(w, op) && w.hub.nextCmdId + 1 !in w.ledger
    ensures SubmittedAs(w', op, w.hub.nextCmdId + 1)
  {
    SubmitObserved(cfg, w, op);
  }

  lemma LiveMovesOn(ledger: map<nat, Fate>, ledger': map<nat, Fate>, id: nat)
    requires Moved(ledger, ledger', id) && LivePhase(ledger[id].phase)
    ensures id in ledger' && ledger'[id].plc == ledger[id].plc && ledger'[id].phase != NeverAccepted
  {
  }

  lemma WaitsOrAnswered(cfg: Config, ops: seq<Op>, more: seq<Op>, id: nat)
    requires id in Run(cfg, START, ops).registered
    ensures WaiterFate(Run(cfg, START, ops + more), id)
  {
    RegisteredStays(cfg, ops, more, id);
    EveryWaiterIsAnsweredOnce(cfg, ops + more, id);
  }

  /** An accepted submission gets an id that no command ever had. From then on, in every run, the command belongs to its PLC
      and is waiting, on its way or over, and a caller that waits for it either still waits or was answered once. `w`, `w1`
      and `w2` are the worlds before it, after it and at the end. */
  lemma SubmittedForGood(cfg: Config, ops: seq<Op>, op: Op, more: seq<Op>, w: World, w1: World, w2: World)
    requires w == Run(cfg, START, ops) && w1 == Run(cfg, START, ops + [op]) && w2 == Run(cfg, START, ops + [op] + more)
    requires op.OpSubmit? && Accepted(w, op)
    ensures var id := w.hub.nextCmdId + 1;
      && id !in w.ledger && id in w2.ledger && w2.ledger[id].plc == op.name && w2.ledger[id].phase != NeverAccepted
      && (op.wait ==> WaiterFate(w2, id))
  {
    var id := w.hub.nextCmdId + 1;
    FreshRunId(cfg, ops);
    RunSnoc(cfg, START, ops, op);
    SubmittedNow(cfg, op, w, w1);
    CommandsNeverComeBack(cfg, ops + [op], more, id);
    LiveMovesOn(w1.ledger, w2.ledger, id);
    if op.wait { WaitsOrAnswered(cfg, ops + [op], more, id); }
  }
}
