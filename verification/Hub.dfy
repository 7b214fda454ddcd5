/** The hub as the server runs it: one lock, every method a critical section. `apps/plc-link-server/src/hub.rs`.

    Each method is proved against its step in `HubSpec`; `Serve` makes any sequence of calls on one object and ends where
    the run of these calls ends, so that every theorem about runs holds of the object. */
module LinkHub {
  import opened Wrappers
  import opened HubSpec
  import opened HubRuns
  import opened HubSafety

  /** The command is not ended yet: nothing is noted on it. */
  predicate Clean(c: Cmd) {
    c.view.finished.None? && c.view.reply.None? && c.view.code.None? && c.view.httpStatus.None? && c.view.error.None?
  }

  predicate Tidy(cmds: seq<Cmd>, next: nat) {
    Increasing(cmds) && forall k | 0 <= k < |cmds| :: Clean(cmds[k]) && cmds[k].view.id <= next
  }

  /** What every method keeps: queues in order of submission, of commands that have not ended. */
  predicate Orderly(h: HubState) {
    && (forall n | n in h.plcs :: Tidy(h.plcs[n].cmds, h.nextCmdId))
    && (forall id | id in h.waiters :: id <= h.nextCmdId)
  }

  lemma KeepTidy(cmds: seq<Cmd>, p: Pick, next: nat)
    requires Tidy(cmds, next)
    ensures Tidy(Keep(cmds, p), next)
  {
    KeepOf(cmds, p);
    forall k | 0 <= k < |Keep(cmds, p)| ensures Clean(Keep(cmds, p)[k]) && Keep(cmds, p)[k].view.id <= next {
      assert Keep(cmds, p)[k] in cmds;
    }
  }

  // ---------------------------------------------------------------- removing one command

  /** Ending the first picked command leaves the others to end. */
  lemma {:induction false} RemoveFirst(cmds: seq<Cmd>, p: Pick)
    requires First(cmds, p) < |cmds|
    ensures var i := First(cmds, p);
      Keep(Without(cmds, i), p) == Keep(cmds, p) && Take(cmds, p) == [cmds[i]] + Take(Without(cmds, i), p)
  {
    var i := First(cmds, p);
    if i == 0 {
      assert Without(cmds, 0) == cmds[1..];
    } else {
      RemoveFirst(cmds[1..], p);
      WithoutTail(cmds, i);
    }
  }

  lemma WithoutTail(cmds: seq<Cmd>, i: nat)
    requires 0 < i < |cmds|
    ensures Without(cmds, i)[0] == cmds[0] && Without(cmds, i)[1..] == Without(cmds[1..], i - 1)
  {
  }

  /** None is left to end. */
  lemma {:induction false} NoneLeft(cmds: seq<Cmd>, p: Pick)
    requires First(cmds, p) == |cmds|
    ensures Keep(cmds, p) == cmds && Take(cmds, p) == []
  {
    if cmds != [] { NoneLeft(cmds[1..], p); }
  }

  /** Ids are unique, so picking by id picks that one command. */
  lemma {:induction false} RemoveOne(cmds: seq<Cmd>, i: nat)
    requires Increasing(cmds) && i < |cmds|
    ensures First(cmds, TheId(cmds[i].view.id)) == i
    ensures Keep(cmds, TheId(cmds[i].view.id)) == Without(cmds, i) && Take(cmds, TheId(cmds[i].view.id)) == [cmds[i]]
  {
    var p := TheId(cmds[i].view.id);
    var f := First(cmds, p);
    assert f == i by { assert Picked(p, cmds[i]); }
    RemoveFirst(cmds, p);
    forall k | 0 <= k < |Without(cmds, i)| ensures !Picked(p, Without(cmds, i)[k]) {}
    assert First(Without(cmds, i), p) == |Without(cmds, i)|;
    NoneLeft(Without(cmds, i), p);
  }

  lemma {:induction false} TakeSnoc(cmds: seq<Cmd>, c: Cmd, p: Pick)
    ensures Take(cmds + [c], p) == Take(cmds, p) + if Picked(p, c) then [c] else []
  {
    if cmds != [] {
      TakeSnoc(cmds[1..], c, p);
      assert (cmds + [c])[1..] == cmds[1..] + [c];
    }
  }

  /** Drops the oldest entries beyond the cap. */
  method Trim(all: seq<CmdView>, cap: nat) returns (history: seq<CmdView>)
    ensures history == LastN(all, cap)
  {
    history := all;
    while |history| > cap
      invariant |history| <= |all| && history == all[|all| - |history|..]
      invariant |history| >= cap || history == all
    {
      history := history[1..];
    }
  }

  /** `finish` */
  method Finish(st: Plc, idx: nat, state: CmdState, cap: nat, now: nat) returns (st': Plc, view: CmdView)
    requires idx < |st.cmds|
    ensures view == st.cmds[idx].view.(state := state, finished := Some(now), elapsed := Some(Age(st.cmds[idx], now)))
    ensures st' == st.(cmds := Without(st.cmds, idx), history := Record(st.history, [view], cap))
  {
    var c := st.cmds[idx];
    view := c.view.(state := state, finished := Some(now), elapsed := Some(Age(c, now)));
    var history := Trim(st.history + [view], cap);
    st' := st.(cmds := Without(st.cmds, idx), history := history);
  }

  // ---------------------------------------------------------------- the loops that end several commands

  /** Some of the commands that `p` picks in `was` are over. */
  ghost predicate Underway(cap: nat, was: Plc, st: Plc, finished: seq<CmdView>, p: Pick, e: Ending, now: nat) {
    && st == was.(cmds := st.cmds, history := Record(was.history, finished, cap))
    && Keep(st.cmds, p) == Keep(was.cmds, p)
    && EndedAll(Take(was.cmds, p), e, now) == finished + EndedAll(Take(st.cmds, p), e, now)
  }

  lemma EndedCons(c: Cmd, rest: seq<Cmd>, e: Ending, now: nat)
    ensures EndedAll([c] + rest, e, now) == [Ended(c, e, now)] + EndedAll(rest, e, now)
  {
  }

  lemma EndOneViews(cmds: seq<Cmd>, rest: seq<Cmd>, all: seq<CmdView>, finished: seq<CmdView>, p: Pick, e: Ending, now: nat, v: CmdView)
    requires First(cmds, p) < |cmds| && rest == Without(cmds, First(cmds, p)) && v == Ended(cmds[First(cmds, p)], e, now)
    requires all == finished + EndedAll(Take(cmds, p), e, now)
    ensures all == finished + [v] + EndedAll(Take(rest, p), e, now) && Keep(rest, p) == Keep(cmds, p)
  {
    RemoveFirst(cmds, p);
    EndedCons(cmds[First(cmds, p)], Take(rest, p), e, now);
    ConcatAssoc(finished, [v], EndedAll(Take(rest, p), e, now));
  }

  lemma EndOne(cap: nat, was: Plc, st: Plc, finished: seq<CmdView>, p: Pick, e: Ending, now: nat, st': Plc, v: CmdView)
    requires Underway(cap, was, st, finished, p, e, now) && First(st.cmds, p) < |st.cmds|
    requires v == Ended(st.cmds[First(st.cmds, p)], e, now)
    requires st' == st.(cmds := Without(st.cmds, First(st.cmds, p)), history := Record(st.history, [v], cap))
    ensures Underway(cap, was, st', finished + [v], p, e, now)
  {
    EndOneViews(st.cmds, st'.cmds, EndedAll(Take(was.cmds, p), e, now), finished, p, e, now, v);
    RecordTwice(was.history, finished, [v], cap);
  }

  lemma EndAll(cap: nat, was: Plc, st: Plc, finished: seq<CmdView>, p: Pick, e: Ending, now: nat)
    requires Underway(cap, was, st, finished, p, e, now) && First(st.cmds, p) == |st.cmds|
    ensures finished == EndedAll(Take(was.cmds, p), e, now)
    ensures st == was.(cmds := Keep(was.cmds, p), history := Record(was.history, finished, cap))
  {
    NoneLeft(st.cmds, p);
  }

  /** Notes the error on command `idx` and ends it. */
  method Fail(st: Plc, idx: nat, state: CmdState, error: CmdError, cap: nat, now: nat) returns (st': Plc, view: CmdView)
    requires idx < |st.cmds|
    ensures view == Ended(st.cmds[idx], Ending(state, Some(error), None, None, None), now)
    ensures st' == st.(cmds := Without(st.cmds, idx), history := Record(st.history, [view], cap))
  {
    var c := st.cmds[idx];
    var noted := st.(cmds := st.cmds[idx := c.(view := c.view.(error := Some(error)))]);
    st', view := Finish(noted, idx, state, cap, now);
    assert Without(noted.cmds, idx) == Without(st.cmds, idx);
  }

  /** Notes the answer on command `idx` and ends it. */
  method Answer(st: Plc, idx: nat, e: Ending, cap: nat, now: nat) returns (st': Plc, view: CmdView)
    requires idx < |st.cmds| && Clean(st.cmds[idx]) && (e.state == Done ==> e.error.None?)
    ensures view == Ended(st.cmds[idx], e, now)
    ensures st' == st.(cmds := Without(st.cmds, idx), history := Record(st.history, [view], cap))
  {
    var c := st.cmds[idx];
    var noted := c.view.(reply := e.reply, code := e.code, httpStatus := e.httpStatus);
    if e.state != Done { noted := noted.(error := e.error); }
    var st1 := st.(cmds := st.cmds[idx := c.(view := noted)]);
    st', view := Finish(st1, idx, e.state, cap, now);
    assert Without(st1.cmds, idx) == Without(st.cmds, idx);
  }

  /** Notes why command `idx` was not delivered, and ends it. */
  method SendingFailed(st: Plc, idx: nat, err: string, http: Option<nat>, cap: nat, now: nat) returns (st': Plc, view: CmdView)
    requires idx < |st.cmds| && Clean(st.cmds[idx])
    ensures view == Ended(st.cmds[idx], Ending(Failed, Some(SendFailed(err)), None, None, http), now)
    ensures st' == st.(cmds := Without(st.cmds, idx), history := Record(st.history, [view], cap))
  {
    var c := st.cmds[idx];
    var noted := st.(cmds := st.cmds[idx := c.(view := c.view.(error := Some(SendFailed(err)), httpStatus := http))]);
    st', view := Finish(noted, idx, Failed, cap, now);
    assert Without(noted.cmds, idx) == Without(st.cmds, idx);
  }

  /** Ends the picked commands, the first one first, until none is left. */
  method EndEvery(cfg: Config, was: Plc, p: Pick, state: CmdState, error: CmdError, now: nat) returns (st: Plc, finished: seq<CmdView>)
    ensures var e := Ending(state, Some(error), None, None, None);
      st == EndPicked(cfg, was, p, e, now) && finished == EndedAll(Take(was.cmds, p), e, now)
  {
    st, finished := was, [];
    ghost var e := Ending(state, Some(error), None, None, None);
    var idx := First(st.cmds, p);
    while idx < |st.cmds|
      invariant Underway(cfg.historyCap, was, st, finished, p, e, now)
      invariant idx == First(st.cmds, p)
      decreases |st.cmds|
    {
      ghost var prev := st;
      var v;
      st, v := Fail(st, idx, state, error, cfg.historyCap, now);
      EndOne(cfg.historyCap, was, prev, finished, p, e, now, st, v);
      finished := finished + [v];
      idx := First(st.cmds, p);
    }
    EndAll(cfg.historyCap, was, st, finished, p, e, now);
  }

  /** The fields of a PLC whose new connection is up. */
  method Join(was: Plc, mode: Mode, framing: Framing, id: nat, tx: Option<nat>, now: nat) returns (st: Plc)
    ensures st == Joined(was, mode, framing, id, tx, now)
  {
    st := was.(tx := None);
    st := st.(mode := mode, framing := Some(framing), connected := true, since := Some(now), registryOk := None);
    st := st.(lastError := None, connects := st.connects + 1, connId := id, tx := tx);
  }

  /** The link of one PLC is down: what was sent over it fails. */
  method Close(cfg: Config, was: Plc, reason: Option<string>, ghost next: nat, now: nat) returns (st: Plc, finished: seq<CmdView>)
    requires Tidy(was.cmds, next)
    ensures st == EndPicked(cfg, Closed(was, reason), AllSent, LinkEnding(reason), now) && Tidy(st.cmds, next)
    ensures finished == EndedAll(Take(was.cmds, AllSent), LinkEnding(reason), now)
  {
    KeepTidy(was.cmds, AllSent, next);
    st := was.(connected := false, tx := None, disconnects := was.disconnects + 1, lastError := reason);
    st, finished := EndEvery(cfg, st, AllSent, Failed, LinkClosed(reason), now);
  }

  /** One PLC in `tick`. */
  method Maintain(cfg: Config, was: Plc, ghost next: nat, now: nat) returns (st: Plc, ended: seq<CmdView>)
    requires Tidy(was.cmds, next)
    ensures st == TickPlc(cfg, was, now) && Tidy(st.cmds, next)
    ensures ended == EndedAll(Take(was.cmds, OlderThan(now, cfg.cmdTtl)), ExpiredEnding(cfg), now)
  {
    KeepTidy(was.cmds, OlderThan(now, cfg.cmdTtl), next);
    st, ended := EndEvery(cfg, was, OlderThan(now, cfg.cmdTtl), Expired, TooOld(cfg.cmdTtl), now);
    if st.mode == Active && st.framing == Some(Http) && st.connected && st.lastRxAt.Some? && now > st.lastRxAt.value + cfg.heartbeat3 {
      st := st.(connected := false, disconnects := st.disconnects + 1, lastError := Some("no request"));
    }
  }

  lemma HandedSnoc(cmds: seq<Cmd>, c: Cmd)
    ensures Handed(cmds + [c]) == Handed(cmds) + [(c.view.id, c.msg)] && cmds + [] == cmds
  {
  }

  /** The queued commands become sent, one after the other. */
  method HandOut(was: seq<Cmd>, now: nat) returns (cmds: seq<Cmd>, taken: seq<(nat, Message)>)
    ensures cmds == SentPicked(was, AllQueued, now) && taken == Handed(Take(was, AllQueued))
  {
    taken, cmds := [], was;
    for i := 0 to |cmds|
      invariant |cmds| == |was| && forall k | i <= k < |was| :: cmds[k] == was[k]
      invariant forall k | 0 <= k < i :: cmds[k] == if Picked(AllQueued, was[k]) then MarkSent(was[k], now) else was[k]
      invariant taken == Handed(Take(was[..i], AllQueued))
    {
      TakeSnoc(was[..i], was[i], AllQueued);
      HandedSnoc(Take(was[..i], AllQueued), was[i]);
      assert was[..i + 1] == was[..i] + [was[i]];
      if cmds[i].view.state == Queued {
        taken := taken + [(cmds[i].view.id, cmds[i].msg)];
        cmds := cmds[i := cmds[i].(view := cmds[i].view.(state := Sent, sent := Some(now)))];
      }
    }
    assert was[..|was|] == was;
  }

  /** A new command; it goes out at once when there is a channel that takes it. */
  method Enter(id: nat, name: string, msg: Message, tx: Option<nat>, now: nat) returns (c: Cmd, outbound: seq<(nat, Outbound)>)
    ensures c == NewCmd(id, name, msg, tx.Some?, now)
    ensures outbound == if tx.Some? then [(tx.value, Command(id, msg))] else []
  {
    var view := CmdView(id, name, 0, Queued, now, None, None, None, None, None, None, None);
    outbound := [];
    if tx.Some? {
      outbound := [(tx.value, Command(id, msg))];
      view := view.(state := Sent, sent := Some(now));
    }
    c := Cmd(view, msg, now);
  }

  // ---------------------------------------------------------------- ending one command

  lemma EndById(cfg: Config, h: HubState, name: string, idx: nat, e: Ending, now: nat, st': Plc, v: CmdView)
    requires Orderly(h) && name in h.plcs && idx < |h.plcs[name].cmds|
    requires v == Ended(h.plcs[name].cmds[idx], e, now)
    requires st' == h.plcs[name].(cmds := Without(h.plcs[name].cmds, idx), history := Record(h.plcs[name].history, [v], cfg.historyCap))
    ensures EndId(cfg, h, name, h.plcs[name].cmds[idx].view.id, e, now) == Outcome(h.(plcs := h.plcs[name := st']), [v], [], [])
    ensures Tidy(st'.cmds, h.nextCmdId)
  {
    var cmds := h.plcs[name].cmds;
    RemoveOne(cmds, idx);
    KeepTidy(cmds, TheId(cmds[idx].view.id), h.nextCmdId);
    assert EndedAll([cmds[idx]], e, now) == [v];
  }

  /** Every waiter of a run that counts: a new id waits for nothing yet. */
  lemma NewWaiter(h: HubState, id: nat)
    requires Orderly(h) && id == h.nextCmdId + 1
    ensures id !in h.waiters && h.waiters[id := 1] - {id} == h.waiters && h.waiters - {id} == h.waiters
  {
  }

  lemma AppendTidy(cmds: seq<Cmd>, c: Cmd, next: nat)
    requires Tidy(cmds, next) && c.view.id == next + 1 && Clean(c)
    ensures Tidy(cmds + [c], next + 1)
  {
  }

  /** What a submission returns and leaves. */
  predicate Submits(h: HubState, name: string, msg: Message, queue: bool, wait: bool, accepts: bool, now: nat,
                    r: Result<CmdView, HubError>, h': HubState, outbound: seq<(nat, Outbound)>) {
    var (res, out) := Submit(h, name, msg, queue, wait, accepts, now);
    r == res && h' == out.hub && outbound == out.outbound
  }

  lemma SubmitRefused(h: HubState, name: string, msg: Message, queue: bool, wait: bool, accepts: bool, now: nat)
    requires Orderly(h)
    ensures !queue && name in h.plcs && !LiveLink(h.plcs[name]) && !HttpActive(h.plcs[name]) ==>
      Orderly(h.(nextCmdId := h.nextCmdId + 1)) && Submits(h, name, msg, queue, wait, accepts, now, Err(NotConnected), h.(nextCmdId := h.nextCmdId + 1), [])
    ensures !queue && name !in h.plcs ==> Submits(h, name, msg, queue, wait, accepts, now, Err(NotFound), h, [])
  {
  }

  lemma SubmitAccepted(h: HubState, name: string, msg: Message, queue: bool, wait: bool, accepts: bool, now: nat, c: Cmd, h': HubState)
    requires Orderly(h) && (name in h.plcs || queue)
    requires var st := PlcOr(h, name, Active); (LiveLink(st) || HttpActive(st) || queue) && c == NewCmd(h.nextCmdId + 1, name, msg, LiveLink(st) && accepts, now)
    requires h' == h.(plcs := h.plcs[name := PlcOr(h, name, Active).(cmds := PlcOr(h, name, Active).cmds + [c])], nextCmdId := c.view.id,
                      waiters := if wait then h.waiters[c.view.id := 1] else h.waiters)
    ensures Orderly(h')
    ensures Submits(h, name, msg, queue, wait, accepts, now, Ok(c.view), h',
                    if c.view.state == Sent then [(PlcOr(h, name, Active).tx.value, Command(c.view.id, msg))] else [])
  {
    NewWaiter(h, h.nextCmdId + 1);
    AppendTidy(PlcOr(h, name, Active).cmds, c, h.nextCmdId);
  }

  // ---------------------------------------------------------------- the hub

  class Hub {
    const cfg: Config
    var plcs: map<string, Plc>
    var nextCmdId: nat
    var nextConnId: nat
    var waiters: map<nat, nat>

    function State(): HubState
      reads this
    {
      HubState(plcs, nextCmdId, nextConnId, waiters)
    }

    predicate Valid()
      reads this
    {
      Orderly(State())
    }

    constructor (cfg: Config)
      ensures this.cfg == cfg && Valid() && State() == EMPTY
    {
      this.cfg := cfg;
      plcs, nextCmdId, nextConnId, waiters := map[], 0, 0, map[];
    }

    /** Creates the entry of a PLC that the server calls. */
    method EnsurePlc(name: string, mode: Mode, framing: Option<Framing>)
      requires Valid()
      modifies this
      ensures Valid()
      ensures State() == HubSpec.EnsurePlc(old(State()), name, mode, framing).hub
    {
      var st := if name in plcs then plcs[name] else NewPlc(name, mode);
      plcs := plcs[name := st.(mode := mode, framing := if framing.Some? then framing else st.framing)];
    }

    method Attach(name: string, mode: Mode, framing: Framing, tx: Option<nat>, now: nat) returns (id: nat, outbound: seq<(nat, Outbound)>)
      requires Valid()
      modifies this
      ensures Valid()
      ensures var out := HubSpec.Attach(old(State()), name, mode, framing, tx, now); State() == out.hub && outbound == out.outbound
      ensures id == nextConnId && name in plcs && plcs[name].connId == id && plcs[name].connected
    {
      nextConnId := nextConnId + 1;
      id := nextConnId;
      var st := if name in plcs then plcs[name] else NewPlc(name, mode);
      outbound := if st.tx.Some? then [(st.tx.value, Disconnect)] else [];
      st := Join(st, mode, framing, id, tx, now);
      plcs := plcs[name := st];
    }

    method Detach(name: string, connId: nat, reason: Option<string>, now: nat) returns (finished: seq<CmdView>)
      requires Valid()
      modifies this
      ensures Valid()
      ensures var out := HubSpec.Detach(cfg, old(State()), name, connId, reason, now); State() == out.hub && finished == out.finished
    {
      finished := [];
      if name in plcs && plcs[name].connId == connId && plcs[name].connected {
        var st;
        st, finished := Close(cfg, plcs[name], reason, nextCmdId, now);
        plcs := plcs[name := st];
      }
    }

    method TouchHttp(name: string, now: nat) returns (outbound: seq<(nat, Outbound)>)
      requires Valid()
      modifies this
      ensures Valid()
      ensures var out := HubSpec.TouchHttp(old(State()), name, now); State() == out.hub && outbound == out.outbound
    {
      nextConnId := nextConnId + 1;
      outbound := [];
      var st := if name in plcs then plcs[name] else NewPlc(name, Active);
      st := st.(lastRxAt := Some(now));
      if !(st.connected && st.framing == Some(Http) && st.mode == Active) {
        if st.tx.Some? { outbound := [(st.tx.value, Disconnect)]; }
        st := st.(tx := None, mode := Active, framing := Some(Http), connected := true, since := Some(now));
        st := st.(lastError := None, connects := st.connects + 1, connId := nextConnId);
      }
      plcs := plcs[name := st];
    }

    /** A message from the PLC was logged. */
    method Received(name: string, now: nat)
      requires Valid()
      modifies this
      ensures Valid()
      ensures State() == HubSpec.Received(old(State()), name, now).hub
    {
      if name in plcs { plcs := plcs[name := plcs[name].(lastRxAt := Some(now))]; }
    }

    method Submit(name: string, msg: Message, queue: bool, wait: bool, accepts: bool, now: nat)
      returns (r: Result<CmdView, HubError>, outbound: seq<(nat, Outbound)>)
      requires Valid()
      modifies this
      ensures Valid()
      ensures Submits(old(State()), name, msg, queue, wait, accepts, now, r, State(), outbound)
    {
      ghost var was := State();
      outbound := [];
      SubmitRefused(was, name, msg, queue, wait, accepts, now);
      if name !in plcs && !queue { return Err(NotFound), []; }
      var st := if name in plcs then plcs[name] else NewPlc(name, Active);
      nextCmdId := nextCmdId + 1;
      var id := nextCmdId;
      NewWaiter(was, id);
      if wait { waiters := waiters[id := WaitersOf(waiters, id) + 1]; }
      var httpActive := st.mode == Active && st.framing == Some(Http);
      var live := st.connected && st.tx.Some? && !httpActive;
      if !live && !httpActive && !queue {
        waiters := waiters - {id};
        return Err(NotConnected), [];
      }
      var c;
      c, outbound := Enter(id, name, msg, if live && accepts then st.tx else None, now);
      plcs := plcs[name := st.(cmds := st.cmds + [c])];
      SubmitAccepted(was, name, msg, queue, wait, accepts, now, c, State());
      r := Ok(c.view);
    }

    method TakeQueued(name: string, now: nat) returns (taken: seq<(nat, Message)>)
      requires Valid()
      modifies this
      ensures Valid()
      ensures var (res, out) := HubSpec.TakeQueued(old(State()), name, now); taken == res && State() == out.hub
    {
      taken := [];
      if name in plcs {
        var cmds;
        cmds, taken := HandOut(plcs[name].cmds, now);
        plcs := plcs[name := plcs[name].(cmds := cmds)];
      }
    }

    method CommandSent(name: string, id: nat, seqNo: nat, now: nat)
      requires Valid()
      modifies this
      ensures Valid()
      ensures State() == HubSpec.CommandSent(old(State()), name, id, seqNo, now).hub
    {
      if name in plcs {
        var st := plcs[name];
        var i := First(st.cmds, TheId(id));
        if i < |st.cmds| {
          var view := st.cmds[i].view.(seqNo := seqNo, state := Sent, sent := Some(now));
          plcs := plcs[name := st.(cmds := st.cmds[i := st.cmds[i].(view := view)])];
        }
      }
    }

    method CommandFailed(name: string, id: nat, err: string, http: Option<nat>, now: nat) returns (finished: seq<CmdView>)
      requires Valid()
      modifies this
      ensures Valid()
      ensures var out := HubSpec.CommandFailed(cfg, old(State()), name, id, err, http, now); State() == out.hub && finished == out.finished
    {
      finished := [];
      if name in plcs {
        var st := plcs[name];
        var idx := First(st.cmds, TheId(id));
        if idx < |st.cmds| {
          var v;
          st, v := SendingFailed(st, idx, err, http, cfg.historyCap, now);
          EndById(cfg, State(), name, idx, Ending(Failed, Some(SendFailed(err)), None, None, http), now, st, v);
          finished := [v];
          plcs := plcs[name := st];
        }
      }
    }

    method Cancel(name: string, id: nat, now: nat) returns (finished: seq<CmdView>)
      requires Valid()
      modifies this
      ensures Valid()
      ensures var out := HubSpec.Cancel(cfg, old(State()), name, id, now); State() == out.hub && finished == out.finished
    {
      finished := [];
      if name in plcs {
        var st := plcs[name];
        var idx := First(st.cmds, TheId(id));
        if idx < |st.cmds| {
          var v;
          st, v := Fail(st, idx, Cancelled, CancelledByApi, cfg.historyCap, now);
          EndById(cfg, State(), name, idx, Ending(Cancelled, Some(CancelledByApi), None, None, None), now, st, v);
          finished := [v];
          plcs := plcs[name := st];
        }
      }
    }

    method PopHttp(name: string, now: nat) returns (msg: Option<Message>)
      requires Valid()
      modifies this
      ensures Valid()
      ensures var (res, out) := HubSpec.PopHttp(old(State()), name, now); msg == res && State() == out.hub
    {
      msg := None;
      if name in plcs {
        var st := plcs[name];
        st := st.(seqGen := NextSeq(st.seqGen));
        var i := First(st.cmds, AllQueued);
        if i < |st.cmds| {
          var c := st.cmds[i];
          c := c.(view := c.view.(state := Sent, seqNo := st.seqGen, sent := Some(now)), msg := c.msg.(seqNo := st.seqGen));
          st := st.(cmds := st.cmds[i := c]);
          msg := Some(c.msg);
        }
        plcs := plcs[name := st];
      }
    }

    method Reply(name: string, m: Message, id: Option<nat>, http: Option<nat>, now: nat) returns (finished: seq<CmdView>)
      requires Valid()
      modifies this
      ensures Valid()
      ensures var out := HubSpec.Reply(cfg, old(State()), name, m, id, http, now); State() == out.hub && finished == out.finished
    {
      finished := [];
      var read := ReadReply(cfg, m, id.Some?, http);
      if read.Some? && !(id.None? && read.value.0 == 0) && name in plcs {
        var (seqNo, e) := read.value;
        var st := plcs[name];
        var idx := FirstAnswered(st.cmds, seqNo, id);
        if idx < |st.cmds| {
          var v;
          st, v := Answer(st, idx, e, cfg.historyCap, now);
          EndById(cfg, State(), name, idx, e, now, st, v);
          finished := [v];
          plcs := plcs[name := st];
        }
      }
    }

    /** `names` lists the PLCs in the order of the map. */
    method Tick(names: seq<string>, now: nat) returns (finished: seq<CmdView>)
      requires Valid()
      modifies this
      ensures Valid()
      ensures State() == HubSpec.Tick(cfg, old(State()), names, now).hub && finished == HubSpec.Tick(cfg, old(State()), names, now).finished
    {
      finished := [];
      ghost var h := State();
      for i := 0 to |names|
        invariant Valid()
        invariant State() == HubSpec.Tick(cfg, h, names[..i], now).hub && finished == HubSpec.Tick(cfg, h, names[..i], now).finished
      {
        assert names[..i + 1][..i] == names[..i];
        if names[i] in plcs {
          var st, ended := Maintain(cfg, plcs[names[i]], nextCmdId, now);
          finished := finished + ended;
          plcs := plcs[names[i] := st];
        }
      }
      assert names[..|names|] == names;
    }

    /** The second critical section of a call that ended commands. */
    method Deliver(finished: seq<CmdView>) returns (answers: seq<CmdView>)
      requires Valid()
      modifies this`waiters
      ensures Valid()
      ensures State() == HubSpec.Deliver(old(State()), finished).0 && answers == HubSpec.Deliver(old(State()), finished).1
    {
      var senders;
      waiters, senders := TakeWaiters(waiters, finished);
      answers := SendAll(senders);
    }
  }

  // ---------------------------------------------------------------- runs of the object

  lemma ObservedCall(cfg: Config, w: World, op: Op)
    requires !op.OpDeliver? && !op.OpAdvance?
    ensures var w', out := Apply(cfg, w, op), Call(cfg, w.hub, op, w.clock);
      && w'.hub == out.hub && w'.clock == w.clock && w'.answers == w.answers
      && w'.undelivered == if out.finished == [] then w.undelivered else w.undelivered + [out.finished]
  {
  }

  lemma ObservedDelivery(cfg: Config, w: World, b: nat)
    requires b < |w.undelivered|
    ensures var w', (h, sent) := Apply(cfg, w, OpDeliver(b)), Deliver(w.hub, w.undelivered[b]);
      w' == w.(hub := h, undelivered := w.undelivered[..b] + w.undelivered[b + 1..], answers := w.answers + sent)
  {
  }

  /** One call by its name. */
  method Dispatch(hub: Hub, op: Op, now: nat) returns (finished: seq<CmdView>)
    requires hub.Valid() && !op.OpDeliver? && !op.OpAdvance?
    modifies hub
    ensures hub.Valid() && hub.State() == Call(hub.cfg, old(hub.State()), op, now).hub
    ensures finished == Call(hub.cfg, old(hub.State()), op, now).finished
  {
    finished := [];
    match op
    case OpEnsure(name, mode, framing) => hub.EnsurePlc(name, mode, framing);
    case OpAttach(name, mode, kind, tx) => var _, _ := hub.Attach(name, mode, kind, tx, now);
    case OpDetach(name, connId, reason) => finished := hub.Detach(name, connId, reason, now);
    case OpTouch(name) => var _ := hub.TouchHttp(name, now);
    case OpReceived(name) => hub.Received(name, now);
    case OpSubmit(name, msg, queue, wait, accepts) => var _, _ := hub.Submit(name, msg, queue, wait, accepts, now);
    case OpTake(name) => var _ := hub.TakeQueued(name, now);
    case OpCommandSent(name, id, seqNo) => hub.CommandSent(name, id, seqNo, now);
    case OpFailed(name, id, err, http) => finished := hub.CommandFailed(name, id, err, http, now);
    case OpPop(name) => var _ := hub.PopHttp(name, now);
    case OpReply(name, msg, replyTo, http) => finished := hub.Reply(name, msg, replyTo, http, now);
    case OpCancel(name, id) => finished := hub.Cancel(name, id, now);
    case OpTick(order) => finished := hub.Tick(order, now);
  }

  /** The hub and its callers, as far as they show in a run. */
  ghost predicate Follows(hub: Hub, clock: nat, pending: seq<seq<CmdView>>, answers: seq<CmdView>, w: World)
    reads hub
  {
    hub.Valid() && hub.State() == w.hub && clock == w.clock && pending == w.undelivered && answers == w.answers
  }

  /** One step of a run: a call, the second critical section of an earlier call, or time passing. */
  method Advance(hub: Hub, clock: nat, pending: seq<seq<CmdView>>, answers: seq<CmdView>, op: Op, ghost w: World)
    returns (clock': nat, pending': seq<seq<CmdView>>, answers': seq<CmdView>)
    requires Follows(hub, clock, pending, answers, w)
    modifies hub
    ensures Follows(hub, clock', pending', answers', Apply(hub.cfg, w, op))
  {
    clock', pending', answers' := clock, pending, answers;
    match op {
      case OpAdvance(ticks) => clock' := clock + ticks;
      case OpDeliver(b) =>
        if b < |pending| {
          ObservedDelivery(hub.cfg, w, b);
          var sent := hub.Deliver(pending[b]);
          pending', answers' := pending[..b] + pending[b + 1..], answers + sent;
        }
      case _ =>
        ObservedCall(hub.cfg, w, op);
        var finished := Dispatch(hub, op, clock);
        if finished != [] { pending' := pending + [finished]; }
    }
  }

  /** Any schedule of calls on one hub leads where the run of that schedule leads. */
  method Serve(cfg: Config, ops: seq<Op>) returns (hub: Hub, answers: seq<CmdView>)
    ensures hub.State() == Run(cfg, START, ops).hub && answers == Run(cfg, START, ops).answers
  {
    hub := new Hub(cfg);
    var clock, pending := 0, [];
    answers := [];
    for i := 0 to |ops|
      invariant fresh(hub) && hub.cfg == cfg
      invariant Follows(hub, clock, pending, answers, Run(cfg, START, ops[..i]))
    {
      assert ops[..i + 1] == ops[..i] + [ops[i]];
      RunSnoc(cfg, START, ops[..i], ops[i]);
      clock, pending, answers := Advance(hub, clock, pending, answers, ops[i], Run(cfg, START, ops[..i]));
    }
    assert ops[..|ops|] == ops;
  }

  function Handed(cmds: seq<Cmd>): seq<(nat, Message)> {
    seq(|cmds|, k requires 0 <= k < |cmds| => (cmds[k].view.id, cmds[k].msg))
  }

  /** What the senders taken out of the map are going to send. */
  function Sends(senders: seq<(CmdView, nat)>): seq<CmdView> {
    if senders == [] then [] else Repeat(senders[0].0, senders[0].1) + Sends(senders[1..])
  }

  lemma {:induction false} SendsSnoc(senders: seq<(CmdView, nat)>, v: CmdView, n: nat)
    ensures Sends(senders + [(v, n)]) == Sends(senders) + Repeat(v, n)
  {
    if senders != [] {
      SendsSnoc(senders[1..], v, n);
      assert (senders + [(v, n)])[1..] == senders[1..] + [(v, n)];
    }
  }

  /** Under the lock: the waiters of the finished commands are taken out of the map. */
  method TakeWaiters(waiters: map<nat, nat>, finished: seq<CmdView>) returns (left: map<nat, nat>, senders: seq<(CmdView, nat)>)
    ensures left == waiters - ViewIds(finished) && Sends(senders) == AnswersFor(waiters, finished)
  {
    left, senders := waiters, [];
    for i := 0 to |finished|
      invariant left == waiters - ViewIds(finished[..i])
      invariant Sends(senders) + AnswersFor(left, finished[i..]) == AnswersFor(waiters, finished)
    {
      var v := finished[i];
      assert finished[i..][0] == v && finished[i..][1..] == finished[i + 1..];
      assert finished[..i + 1] == finished[..i] + [v];
      assert ViewIds(finished[..i + 1]) == ViewIds(finished[..i]) + {v.id};
      if v.id in left {
        SendsSnoc(senders, v, left[v.id]);
        senders := senders + [(v, left[v.id])];
        left := left - {v.id};
      }
    }
    assert finished[..|finished|] == finished && finished[|finished|..] == [];
  }

  /** Outside the lock: every sender sends its view. */
  method SendAll(senders: seq<(CmdView, nat)>) returns (answers: seq<CmdView>)
    ensures answers == Sends(senders)
  {
    answers := [];
    for i := 0 to |senders|
      invariant answers + Sends(senders[i..]) == Sends(senders)
    {
      assert senders[i..][1..] == senders[i + 1..];
      var sent := SendEach(senders[i].0, senders[i].1);
      assert answers + (sent + Sends(senders[i + 1..])) == answers + sent + Sends(senders[i + 1..]);
      answers := answers + sent;
    }
  }

  method SendEach(v: CmdView, n: nat) returns (sent: seq<CmdView>)
    ensures sent == Repeat(v, n)
  {
    sent := [];
    for k := 0 to n
      invariant sent == Repeat(v, k)
    {
      sent := sent + [v];
    }
  }
}
