/** What a session's calls to the hub achieve when other tasks get in between: `apps/plc-link-server/src/session.rs`. Every
    lemma cuts a run at one call of the session; what stands before and after the cut is any run of the hub, with the other
    calls of the session in it and whatever else happens. */
module SessionRuns {
  import opened Wrappers
  import opened HubSpec
  import opened HubRuns
  import opened HubInvariant
  import opened HubSafety
  import opened HubTheorems
  import opened HubExactly
  import opened Session

  lemma RunOn(cfg: Config, ops: seq<Op>, more: seq<Op>)
    requires more != []
    ensures var front, last := more[..|more| - 1], more[|more| - 1];
      && Run(cfg, START, ops + more) == Apply(cfg, Run(cfg, START, ops + front), last)
      && LinksOk(Run(cfg, START, ops + front).hub)
      && LinkGrows(Run(cfg, START, ops + front).hub, Run(cfg, START, ops + more).hub)
  {
    var front, last := more[..|more| - 1], more[|more| - 1];
    assert ops + more == ops + front + [last];
    RunSnoc(cfg, START, ops + front, last);
    ConnectionsAreSafe(cfg, ops + front);
    StepKeepsLinks(cfg, Run(cfg, START, ops + front), last);
  }

  // ---------------------------------------------------------------- leaving

  /** The PLC is not, and no longer can be, connected under this id. */
  predicate LeftBehind(h: HubState, name: string, id: nat) {
    id <= h.nextConnId && (name in h.plcs && h.plcs[name].connId == id ==> !h.plcs[name].connected)
  }

  lemma LeftStays(h: HubState, h': HubState, name: string, id: nat)
    requires LeftBehind(h, name, id) && LinksOk(h') && LinkGrows(h, h')
    ensures LeftBehind(h', name, id)
  {
    if name in h'.plcs && name !in h.plcs { assert LinkOk(h'.plcs[name], h'.nextConnId); }
  }

  lemma {:induction false} LeftForGood(cfg: Config, ops: seq<Op>, more: seq<Op>, name: string, id: nat)
    requires LeftBehind(Run(cfg, START, ops).hub, name, id)
    ensures LeftBehind(Run(cfg, START, ops + more).hub, name, id)
    decreases |more|
  {
    if more == [] {
      assert ops + more == ops;
    } else {
      var front := more[..|more| - 1];
      LeftForGood(cfg, ops, front, name, id);
      RunOn(cfg, ops, more);
      ConnectionsAreSafe(cfg, ops + more);
      LeftStays(Run(cfg, START, ops + front).hub, Run(cfg, START, ops + more).hub, name, id);
    }
  }

  /** After a session has detached, whether or not another connection had taken its place, its connection is never again the
      live one of that PLC. */
  lemma DetachIsForGood(cfg: Config, ops: seq<Op>, name: string, id: nat, reason: Option<string>, more: seq<Op>)
    requires id <= Run(cfg, START, ops).hub.nextConnId
    ensures LeftBehind(Run(cfg, START, ops + [OpDetach(name, id, reason)] + more).hub, name, id)
  {
    var w := Run(cfg, START, ops);
    RunSnoc(cfg, START, ops, OpDetach(name, id, reason));
    Detached(cfg, w, name, id, reason);
    LeftForGood(cfg, ops + [OpDetach(name, id, reason)], more, name, id);
  }

  lemma Detached(cfg: Config, w: World, name: string, id: nat, reason: Option<string>)
    requires id <= w.hub.nextConnId
    ensures LeftBehind(Apply(cfg, w, OpDetach(name, id, reason)).hub, name, id)
  {
    assert Apply(cfg, w, OpDetach(name, id, reason)).hub == Detach(cfg, w.hub, name, id, reason, w.clock).hub;
  }

  // ---------------------------------------------------------------- joining

  /** Connection `id` belongs to PLC `name` or to none, and speaks through this channel while it is up. */
  predicate OnlyAt(h: HubState, name: string, id: nat, tx: Option<nat>) {
    && 1 <= id <= h.nextConnId && name in h.plcs
    && (forall n | n in h.plcs && h.plcs[n].connId == id :: n == name)
    && (h.plcs[name].connId == id && h.plcs[name].connected ==> h.plcs[name].tx == tx)
  }

  lemma OnlyStays(h: HubState, h': HubState, name: string, id: nat, tx: Option<nat>)
    requires OnlyAt(h, name, id, tx) && LinkGrows(h, h')
    ensures OnlyAt(h', name, id, tx)
  {
    assert EntryGrows(h.plcs[name], h'.plcs[name], h.nextConnId);
    forall n | n in h'.plcs && h'.plcs[n].connId == id ensures n == name {
      if n in h.plcs { assert EntryGrows(h.plcs[n], h'.plcs[n], h.nextConnId); }
    }
  }

  lemma {:induction false} OnlyForGood(cfg: Config, ops: seq<Op>, more: seq<Op>, name: string, id: nat, tx: Option<nat>)
    requires OnlyAt(Run(cfg, START, ops).hub, name, id, tx)
    ensures OnlyAt(Run(cfg, START, ops + more).hub, name, id, tx)
    decreases |more|
  {
    if more == [] {
      assert ops + more == ops;
    } else {
      var front := more[..|more| - 1];
      OnlyForGood(cfg, ops, front, name, id, tx);
      RunOn(cfg, ops, more);
      OnlyStays(Run(cfg, START, ops + front).hub, Run(cfg, START, ops + more).hub, name, id, tx);
    }
  }

  /** The connection that a session gets is its own: no other PLC ever has this id, and while the PLC is connected under it,
      it speaks through the channel of this session. */
  lemma AttachIsExclusive(cfg: Config, ops: seq<Op>, name: string, mode: Mode, kind: Framing, tx: Option<nat>, more: seq<Op>)
    ensures OnlyAt(Run(cfg, START, ops + [OpAttach(name, mode, kind, tx)] + more).hub, name, Run(cfg, START, ops).hub.nextConnId + 1, tx)
  {
    var w, op := Run(cfg, START, ops), OpAttach(name, mode, kind, tx);
    RunSnoc(cfg, START, ops, op);
    ConnectionsAreSafe(cfg, ops);
    Attached(cfg, w, name, mode, kind, tx);
    OnlyForGood(cfg, ops + [op], more, name, w.hub.nextConnId + 1, tx);
  }

  lemma Attached(cfg: Config, w: World, name: string, mode: Mode, kind: Framing, tx: Option<nat>)
    requires LinksOk(w.hub)
    ensures OnlyAt(Apply(cfg, w, OpAttach(name, mode, kind, tx)).hub, name, w.hub.nextConnId + 1, tx)
  {
    assert Apply(cfg, w, OpAttach(name, mode, kind, tx)).hub == Attach(w.hub, name, mode, kind, tx, w.clock).hub;
    forall n | n in w.hub.plcs ensures w.hub.plcs[n].connId != w.hub.nextConnId + 1 { assert LinkOk(w.hub.plcs[n], w.hub.nextConnId); }
  }

  // ---------------------------------------------------------------- taking what is queued

  lemma NoneWaits(cfg: Config, w: World, name: string, id: nat)
    requires Inv(cfg.historyCap, Apply(cfg, w, OpTake(name)))
    requires var w' := Apply(cfg, w, OpTake(name)); id in w'.ledger && w'.ledger[id].plc == name
    ensures Apply(cfg, w, OpTake(name)).ledger[id].phase != Waiting
  {
    TakenState(cfg, w, name);
  }

  lemma Taken(cfg: Config, ops: seq<Op>, name: string, id: nat)
    requires id in Run(cfg, START, ops).ledger && Run(cfg, START, ops).ledger[id].plc == name
    ensures id in Run(cfg, START, ops + [OpTake(name)]).ledger && Run(cfg, START, ops + [OpTake(name)]).ledger[id].phase != Waiting
  {
    NextIsForward(cfg, ops, OpTake(name), id);
    RunKeepsInv(cfg, ops + [OpTake(name)]);
    RunSnoc(cfg, START, ops, OpTake(name));
    NoneWaits(cfg, Run(cfg, START, ops), name, id);
  }

  lemma NotWaitingAgain(ledger: map<nat, Fate>, ledger': map<nat, Fate>, id: nat)
    requires Moved(ledger, ledger', id) && ledger[id].phase != Waiting
    ensures id in ledger' && ledger'[id].phase != Waiting
  {
  }

  /** A Hello leaves nothing behind: a command that any task submitted to the PLC before the session takes what is queued is
      on its way or over from then on, and never waits again. */
  lemma HelloTakesAll(cfg: Config, ops: seq<Op>, name: string, more: seq<Op>, id: nat)
    requires id in Run(cfg, START, ops).ledger && Run(cfg, START, ops).ledger[id].plc == name
    ensures id in Run(cfg, START, ops + [OpTake(name)] + more).ledger
    ensures Run(cfg, START, ops + [OpTake(name)] + more).ledger[id].phase != Waiting
  {
    Taken(cfg, ops, name, id);
    CommandsNeverComeBack(cfg, ops + [OpTake(name)], more, id);
    NotWaitingAgain(Run(cfg, START, ops + [OpTake(name)]).ledger, Run(cfg, START, ops + [OpTake(name)] + more).ledger, id);
  }

  lemma TakenState(cfg: Config, w: World, name: string)
    ensures var h' := Apply(cfg, w, OpTake(name)).hub;
      name in h'.plcs ==> forall k | 0 <= k < |h'.plcs[name].cmds| :: h'.plcs[name].cmds[k].view.state != Queued
  {
    assert Apply(cfg, w, OpTake(name)).hub == TakeQueued(w.hub, name, w.clock).1.hub;
  }

  // ---------------------------------------------------------------- a message that may answer

  /** The command stands in the queue of PLC `n` and has not been sent. */
  predicate StillQueued(h: HubState, n: string, id: nat) {
    n in h.plcs && exists k :: 0 <= k < |h.plcs[n].cmds| && h.plcs[n].cmds[k].view.id == id && h.plcs[n].cmds[k].view.state == Queued
  }

  lemma WaitingIsQueued(cap: nat, w: World, id: nat)
    requires Inv(cap, w) && id in w.ledger && w.ledger[id].phase == Waiting
    ensures StillQueued(w.hub, w.ledger[id].plc, id)
  {
    var n := w.ledger[id].plc;
    assert HasId(w.hub.plcs[n].cmds, id);
    var k: nat :| k < |w.hub.plcs[n].cmds| && w.hub.plcs[n].cmds[k].view.id == id;
    assert PlcOk(n, w.hub.plcs[n], w.ledger, w.clock) && CmdOk(n, w.hub.plcs[n].cmds[k], w.ledger, w.clock);
  }

  lemma QueuedIsWaiting(cap: nat, w: World, n: string, id: nat)
    requires Inv(cap, w) && StillQueued(w.hub, n, id)
    ensures id in w.ledger && w.ledger[id] == Fate(n, Waiting)
  {
    var k: nat :| k < |w.hub.plcs[n].cmds| && w.hub.plcs[n].cmds[k].view.id == id && w.hub.plcs[n].cmds[k].view.state == Queued;
    assert PlcOk(n, w.hub.plcs[n], w.ledger, w.clock) && CmdOk(n, w.hub.plcs[n].cmds[k], w.ledger, w.clock);
  }

  lemma ReplySpares(cfg: Config, h: HubState, name: string, m: Message, replyTo: Option<nat>, http: Option<nat>, now: nat, n: string, id: nat)
    requires StillQueued(h, n, id) && (name in h.plcs ==> Increasing(h.plcs[name].cmds))
    ensures StillQueued(Reply(cfg, h, name, m, replyTo, http, now).hub, n, id)
  {
    var out := Reply(cfg, h, name, m, replyTo, http, now);
    var k, v := ReplyExactly(cfg, h, name, m, replyTo, http, now);
    if IsReply(cfg, m, replyTo) && SomeReplied(cfg, h, name, m, replyTo) && n == name {
      SparedBy(h.plcs[n].cmds, out.hub.plcs[n].cmds, k, id);
    }
  }

  lemma SparedBy(cmds: seq<Cmd>, cmds': seq<Cmd>, e: nat, id: nat)
    requires e < |cmds| && cmds[e].view.state == Sent && cmds' == cmds[..e] + cmds[e + 1..]
    requires exists k :: 0 <= k < |cmds| && cmds[k].view.id == id && cmds[k].view.state == Queued
    ensures exists k :: 0 <= k < |cmds'| && cmds'[k].view.id == id && cmds'[k].view.state == Queued
  {
    var k :| 0 <= k < |cmds| && cmds[k].view.id == id && cmds[k].view.state == Queued;
    assert cmds'[if k < e then k else k - 1] == cmds[k];
  }

  lemma ReplyState(cfg: Config, w: World, name: string, m: Message, replyTo: Option<nat>, http: Option<nat>)
    ensures Apply(cfg, w, OpReply(name, m, replyTo, http)).hub == Reply(cfg, w.hub, name, m, replyTo, http, w.clock).hub
  {
  }

  /** A message never ends a command that still waits to be sent, whenever it comes. */
  lemma MessagesSpareTheQueue(cfg: Config, ops: seq<Op>, name: string, m: Message, replyTo: Option<nat>, http: Option<nat>, id: nat)
    requires id in Run(cfg, START, ops).ledger && Run(cfg, START, ops).ledger[id].phase == Waiting
    ensures var w' := Run(cfg, START, ops + [OpReply(name, m, replyTo, http)]);
      id in w'.ledger && w'.ledger[id] == Run(cfg, START, ops).ledger[id]
  {
    var w, op := Run(cfg, START, ops), OpReply(name, m, replyTo, http);
    RunSnoc(cfg, START, ops, op);
    QueuesAndRecords(cfg, ops);
    RunKeepsInv(cfg, ops);
    RunKeepsInv(cfg, ops + [op]);
    WaitingIsQueued(cfg.historyCap, w, id);
    ReplyState(cfg, w, name, m, replyTo, http);
    ReplySpares(cfg, w.hub, name, m, replyTo, http, w.clock, w.ledger[id].plc, id);
    QueuedIsWaiting(cfg.historyCap, Run(cfg, START, ops + [op]), w.ledger[id].plc, id);
  }

  // ---------------------------------------------------------------- the methods of a session are these steps

  /** `Driver::attach` as steps of the hub. */
  function AttachOps(plc: Option<string>, connId: nat, name: string, mode: Mode, kind: Framing, tx: nat): seq<Op> {
    if connId != 0 && plc == Some(name) then []
    else (if connId != 0 && plc.Some? then [OpDetach(plc.value, connId, RenamedTo(name))] else []) + [OpAttach(name, mode, kind, Some(tx))]
  }

  /** The state that a step leaves, at an unchanged clock. */
  lemma StepState(cfg: Config, ops: seq<Op>, op: Op)
    requires op.OpDetach? || op.OpAttach? || op.OpReceived? || op.OpTake?
    ensures var w := Run(cfg, START, ops); var w' := Run(cfg, START, ops + [op]);
      w'.hub == Call(cfg, w.hub, op, w.clock).hub && w'.clock == w.clock
  {
    RunSnoc(cfg, START, ops, op);
    CallState(cfg, Run(cfg, START, ops), op);
  }

  lemma CallState(cfg: Config, w: World, op: Op)
    requires op.OpDetach? || op.OpAttach? || op.OpReceived? || op.OpTake?
    ensures Apply(cfg, w, op).hub == Call(cfg, w.hub, op, w.clock).hub && Apply(cfg, w, op).clock == w.clock
  {
  }

  /** When nothing gets in between, a session that attaches leaves what `Session.Driver.Attach` promises. */
  lemma AttachSteps(cfg: Config, ops: seq<Op>, plc: Option<string>, connId: nat, name: string, mode: Mode, kind: Framing, tx: nat)
    ensures var w := Run(cfg, START, ops); var w' := Run(cfg, START, ops + AttachOps(plc, connId, name, mode, kind, tx));
      w'.hub == Joins(cfg, w.hub, plc, connId, name, mode, kind, tx, w.clock) && w'.clock == w.clock
  {
    var attach := OpAttach(name, mode, kind, Some(tx));
    if connId != 0 && plc == Some(name) {
      assert ops + [] == ops;
    } else if connId != 0 && plc.Some? {
      var detach := OpDetach(plc.value, connId, RenamedTo(name));
      StepState(cfg, ops, detach);
      StepState(cfg, ops + [detach], attach);
      assert ops + ([detach] + [attach]) == ops + [detach] + [attach];
    } else {
      StepState(cfg, ops, attach);
      assert [] + [attach] == [attach];
    }
  }

  /** The same for a Hello: attach, note the message, take what is queued. */
  lemma HelloSteps(cfg: Config, ops: seq<Op>, plc: Option<string>, connId: nat, name: string, mode: Mode, kind: Framing, tx: nat)
    ensures var w := Run(cfg, START, ops);
      Run(cfg, START, ops + AttachOps(plc, connId, name, mode, kind, tx) + [OpReceived(name)] + [OpTake(name)]).hub
      == Heard(Joins(cfg, w.hub, plc, connId, name, mode, kind, tx, w.clock), name, w.clock)
  {
    AttachSteps(cfg, ops, plc, connId, name, mode, kind, tx);
    HeardSteps(cfg, ops + AttachOps(plc, connId, name, mode, kind, tx), name);
  }

  lemma HeardSteps(cfg: Config, ops: seq<Op>, name: string)
    ensures Run(cfg, START, ops + [OpReceived(name)] + [OpTake(name)]).hub == Heard(Run(cfg, START, ops).hub, name, Run(cfg, START, ops).clock)
  {
    StepState(cfg, ops, OpReceived(name));
    StepState(cfg, ops + [OpReceived(name)], OpTake(name));
  }

  /** And for any other message: attach under the peer's name when still unnamed, note the message, look for the command that
      it answers. */
  lemma MessageSteps(cfg: Config, ops: seq<Op>, plc: Option<string>, connId: nat, peer: string, mode: Mode, kind: Framing, tx: nat, m: Message)
    requires connId != 0 ==> plc.Some?
    ensures var w := Run(cfg, START, ops);
      var attach := if connId == 0 then AttachOps(plc, 0, peer, mode, kind, tx) else [];
      var joined := if connId == 0 then Joins(cfg, w.hub, plc, 0, peer, mode, kind, tx, w.clock) else w.hub;
      var name := if connId == 0 then peer else plc.value;
      Run(cfg, START, ops + attach + [OpReceived(name)] + [OpReply(name, m, None, None)]).hub
      == Reply(cfg, Received(joined, name, w.clock).hub, name, m, None, None, w.clock).hub
  {
    if connId == 0 {
      AttachSteps(cfg, ops, plc, 0, peer, mode, kind, tx);
      AnsweredSteps(cfg, ops + AttachOps(plc, 0, peer, mode, kind, tx), peer, m);
    } else {
      assert ops + [] == ops;
      AnsweredSteps(cfg, ops, plc.value, m);
    }
  }

  lemma AnsweredSteps(cfg: Config, ops: seq<Op>, name: string, m: Message)
    ensures var w := Run(cfg, START, ops);
      Run(cfg, START, ops + [OpReceived(name)] + [OpReply(name, m, None, None)]).hub
      == Reply(cfg, Received(w.hub, name, w.clock).hub, name, m, None, None, w.clock).hub
  {
    StepState(cfg, ops, OpReceived(name));
    RunSnoc(cfg, START, ops + [OpReceived(name)], OpReply(name, m, None, None));
    ReplyState(cfg, Run(cfg, START, ops + [OpReceived(name)]), name, m, None, None);
  }
}
