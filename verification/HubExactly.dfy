/** What each call of the hub does, said in the fields of messages, commands and PLC entries alone:
    `apps/plc-link-server/src/hub.rs`. */
module HubExactly {
  import opened Wrappers
  import opened HubSpec
  import opened HubRuns
  import opened LinkHub

  // ---------------------------------------------------------------- filtering commands

  lemma {:induction false} KeepIsFilter(cmds: seq<Cmd>, p: Pick, stays: Cmd -> bool)
    requires forall c :: Picked(p, c) <==> !stays(c)
    ensures Keep(cmds, p) == Filter(cmds, stays)
  {
    if cmds != [] { KeepIsFilter(cmds[1..], p, stays); }
  }

  lemma {:induction false} TakeIsFilter(cmds: seq<Cmd>, p: Pick, goes: Cmd -> bool)
    requires forall c :: Picked(p, c) <==> goes(c)
    ensures Take(cmds, p) == Filter(cmds, goes)
  {
    if cmds != [] { TakeIsFilter(cmds[1..], p, goes); }
  }

  /** The newest `cap` entries once `views` were added; a history that gets nothing stays as it is. */
  predicate Appended(was: seq<CmdView>, views: seq<CmdView>, cap: nat, now: seq<CmdView>) {
    var all := was + views;
    now == if views == [] then was else if |all| <= cap then all else all[|all| - cap..]
  }

  // ---------------------------------------------------------------- one command ends

  /** The view of a command that ended now: the state and its end are new, what it was and when it was sent is not. */
  predicate EndsAs(c: Cmd, v: CmdView, state: CmdState, error: Option<CmdError>, now: nat) {
    && v.id == c.view.id && v.plc == c.view.plc && v.seqNo == c.view.seqNo && v.created == c.view.created && v.sent == c.view.sent
    && v.state == state && v.error == error
    && v.finished == Some(now) && v.elapsed == Some(if now >= c.createdAt then now - c.createdAt else 0)
  }

  /** Command `k` of the PLC ended as `v`; nothing else happened to the hub. */
  predicate OnlyEnds(h: HubState, name: string, k: nat, v: CmdView, cap: nat, out: Outcome) {
    && name in h.plcs && k < |h.plcs[name].cmds| && name in out.hub.plcs
    && out.finished == [v] && out.handed == [] && out.outbound == []
    && Appended(h.plcs[name].history, [v], cap, out.hub.plcs[name].history)
    && out.hub == h.(plcs := h.plcs[name := h.plcs[name].(
         cmds := h.plcs[name].cmds[..k] + h.plcs[name].cmds[k + 1..], history := out.hub.plcs[name].history)])
  }

  lemma EndedAt(cfg: Config, h: HubState, name: string, k: nat, e: Ending, now: nat)
    requires name in h.plcs && Increasing(h.plcs[name].cmds) && k < |h.plcs[name].cmds|
    ensures OnlyEnds(h, name, k, Ended(h.plcs[name].cmds[k], e, now), cfg.historyCap, EndId(cfg, h, name, h.plcs[name].cmds[k].view.id, e, now))
  {
    RemoveOne(h.plcs[name].cmds, k);
    assert EndedAll([h.plcs[name].cmds[k]], e, now) == [Ended(h.plcs[name].cmds[k], e, now)];
  }

  /** The command with this id is at `k`. */
  predicate At(cmds: seq<Cmd>, id: nat, k: nat) {
    k < |cmds| && cmds[k].view.id == id
  }

  /** Nothing happens. */
  predicate Nothing(h: HubState, out: Outcome) {
    out.hub == h && out.finished == [] && out.handed == [] && out.outbound == []
  }

  lemma EndIdExactly(cfg: Config, h: HubState, name: string, id: nat, e: Ending, now: nat) returns (k: nat)
    requires name in h.plcs ==> Increasing(h.plcs[name].cmds)
    ensures (name !in h.plcs || forall j :: !At(h.plcs[name].cmds, id, j)) ==> Nothing(h, EndId(cfg, h, name, id, e, now))
    ensures name in h.plcs && (exists j :: At(h.plcs[name].cmds, id, j)) ==>
      At(h.plcs[name].cmds, id, k)
      && OnlyEnds(h, name, k, Ended(h.plcs[name].cmds[k], e, now), cfg.historyCap, EndId(cfg, h, name, id, e, now))
  {
    k := 0;
    if name in h.plcs {
      var cmds := h.plcs[name].cmds;
      if j: nat :| At(cmds, id, j) {
        k := j;
        EndedAt(cfg, h, name, k, e, now);
      } else {
        forall j: nat | j < |cmds| ensures !Picked(TheId(id), cmds[j]) { assert !At(cmds, id, j); }
      }
    }
  }

  /** A cancelled command, queued or sent, ends Cancelled; an id that is not there cancels nothing. */
  lemma CancelExactly(cfg: Config, h: HubState, name: string, id: nat, now: nat) returns (k: nat, v: CmdView)
    requires name in h.plcs ==> Increasing(h.plcs[name].cmds)
    ensures var out := Cancel(cfg, h, name, id, now);
      if name in h.plcs && exists j :: At(h.plcs[name].cmds, id, j) then
        && At(h.plcs[name].cmds, id, k) && OnlyEnds(h, name, k, v, cfg.historyCap, out)
        && EndsAs(h.plcs[name].cmds[k], v, Cancelled, Some(CancelledByApi), now)
      else Nothing(h, out)
  {
    k := EndIdExactly(cfg, h, name, id, Ending(Cancelled, Some(CancelledByApi), None, None, None), now);
    v := if name in h.plcs && k < |h.plcs[name].cmds|
      then Ended(h.plcs[name].cmds[k], Ending(Cancelled, Some(CancelledByApi), None, None, None), now)
      else CmdView(0, "", 0, Queued, 0, None, None, None, None, None, None, None);
  }

  /** A command that could not be sent ends Failed, with the text and the HTTP status. */
  lemma FailExactly(cfg: Config, h: HubState, name: string, id: nat, err: string, http: Option<nat>, now: nat) returns (k: nat, v: CmdView)
    requires name in h.plcs ==> Increasing(h.plcs[name].cmds)
    ensures var out := CommandFailed(cfg, h, name, id, err, http, now);
      if name in h.plcs && exists j :: At(h.plcs[name].cmds, id, j) then
        && At(h.plcs[name].cmds, id, k) && OnlyEnds(h, name, k, v, cfg.historyCap, out)
        && EndsAs(h.plcs[name].cmds[k], v, Failed, Some(SendFailed(err)), now) && (http.Some? ==> v.httpStatus == http)
      else Nothing(h, out)
  {
    k := EndIdExactly(cfg, h, name, id, Ending(Failed, Some(SendFailed(err)), None, None, http), now);
    v := if name in h.plcs && k < |h.plcs[name].cmds|
      then Ended(h.plcs[name].cmds[k], Ending(Failed, Some(SendFailed(err)), None, None, http), now)
      else CmdView(0, "", 0, Queued, 0, None, None, None, None, None, None, None);
  }

  // ---------------------------------------------------------------- replies

  /** A result, or an Ack that can be read and refers to a command or came as the response to one. */
  predicate IsReply(cfg: Config, m: Message, id: Option<nat>) {
    || (m.kind == cfg.resultId && m.kind != 0)
    || (m.kind == cfg.ackId && m.kind != 0 && m.kind != cfg.resultId && m.ack.Some? && (id.Some? || m.ack.value.refType == Some(cfg.commandId)))
  }

  /** `c` is sent and is the one that the reply answers: the one with the id, or without an id the one with the number. */
  predicate RepliesTo(cfg: Config, m: Message, id: Option<nat>, c: Cmd) {
    && c.view.state == Sent
    && match id
       case Some(i) => c.view.id == i
       case None =>
         if m.kind == cfg.resultId then c.view.seqNo == m.seqNo && m.seqNo != 0
         else m.ack.Some? && c.view.seqNo == m.ack.value.refSeq && m.ack.value.refSeq != 0
  }

  /** How the command ends: a result with a good HTTP status, if any, is Done, else Failed; an Ack with code 0 and such a status is
      Done, else Rejected. What is not Done carries the reason. */
  predicate RepliedAs(cfg: Config, m: Message, http: Option<nat>, c: Cmd, v: CmdView, now: nat) {
    var good := http.None? || http.value == 200;
    if m.kind == cfg.resultId then
      && v.reply == Some((CommandResult, m)) && v.code == c.view.code && (http.Some? ==> v.httpStatus == http)
      && if good then EndsAs(c, v, Done, c.view.error, now) else EndsAs(c, v, Failed, Some(Refused(None, None, http)), now)
    else
      && m.ack.Some? && v.reply == Some((Ack, m)) && v.code == Some(m.ack.value.code) && (http.Some? ==> v.httpStatus == http)
      && if m.ack.value.code == 0 && good then EndsAs(c, v, Done, c.view.error, now)
         else EndsAs(c, v, Rejected, Some(Refused(Some(m.ack.value.code), m.ack.value.text, http)), now)
  }

  /** Command `k` is the first that the reply answers. */
  predicate FirstReplied(cfg: Config, h: HubState, name: string, m: Message, id: Option<nat>, k: nat) {
    && name in h.plcs && k < |h.plcs[name].cmds| && RepliesTo(cfg, m, id, h.plcs[name].cmds[k])
    && forall j | 0 <= j < k :: !RepliesTo(cfg, m, id, h.plcs[name].cmds[j])
  }

  predicate SomeReplied(cfg: Config, h: HubState, name: string, m: Message, id: Option<nat>) {
    name in h.plcs && exists k :: 0 <= k < |h.plcs[name].cmds| && RepliesTo(cfg, m, id, h.plcs[name].cmds[k])
  }

  lemma ReadReplyMeans(cfg: Config, m: Message, id: Option<nat>, http: Option<nat>, c: Cmd)
    ensures ReadReply(cfg, m, id.Some?, http).Some? <==> IsReply(cfg, m, id)
    ensures IsReply(cfg, m, id) ==>
      var (seqNo, e) := ReadReply(cfg, m, id.Some?, http).value;
      ((id.Some? || seqNo != 0) && Answers(c, seqNo, id) <==> RepliesTo(cfg, m, id, c))
  {
  }

  lemma ReplyEnds(cfg: Config, m: Message, id: Option<nat>, http: Option<nat>, c: Cmd, now: nat)
    requires IsReply(cfg, m, id) && ReadReply(cfg, m, id.Some?, http).Some?
    ensures RepliedAs(cfg, m, http, c, Ended(c, ReadReply(cfg, m, id.Some?, http).value.1, now), now)
  {
  }

  /** A message ends a command if and only if it is a reply and some sent command is the one that it answers; then the first such
      command ends as the reply says. Otherwise nothing happens. */
  lemma ReplyExactly(cfg: Config, h: HubState, name: string, m: Message, id: Option<nat>, http: Option<nat>, now: nat)
    returns (k: nat, v: CmdView)
    requires name in h.plcs ==> Increasing(h.plcs[name].cmds)
    ensures var out := Reply(cfg, h, name, m, id, http, now);
      if IsReply(cfg, m, id) && SomeReplied(cfg, h, name, m, id) then
        && FirstReplied(cfg, h, name, m, id, k) && OnlyEnds(h, name, k, v, cfg.historyCap, out)
        && RepliedAs(cfg, m, http, h.plcs[name].cmds[k], v, now)
      else Nothing(h, out)
  {
    k, v := 0, CmdView(0, "", 0, Queued, 0, None, None, None, None, None, None, None);
    var read := ReadReply(cfg, m, id.Some?, http);
    if name in h.plcs {
      var cmds := h.plcs[name].cmds;
      forall j | 0 <= j < |cmds|
        ensures IsReply(cfg, m, id) ==> read.Some? && ((id.Some? || read.value.0 != 0) && Answers(cmds[j], read.value.0, id) <==> RepliesTo(cfg, m, id, cmds[j]))
      {
        ReadReplyMeans(cfg, m, id, http, cmds[j]);
      }
      ReadOrNot(cfg, m, id, http);
      if IsReply(cfg, m, id) && SomeReplied(cfg, h, name, m, id) {
        k := FirstAnswered(cmds, read.value.0, id);
        v := Ended(cmds[k], read.value.1, now);
        EndedAt(cfg, h, name, k, read.value.1, now);
        ReplyEnds(cfg, m, id, http, cmds[k], now);
      }
    } else {
      ReadOrNot(cfg, m, id, http);
    }
  }

  lemma ReadOrNot(cfg: Config, m: Message, id: Option<nat>, http: Option<nat>)
    ensures ReadReply(cfg, m, id.Some?, http).Some? <==> IsReply(cfg, m, id)
  {
  }

  // ---------------------------------------------------------------- maintenance

  /** What is left of a queue: the commands younger than the time to live; without one, none. */
  function Left(cfg: Config, now: nat, cmds: seq<Cmd>): seq<Cmd> {
    Filter(cmds, (c: Cmd) => now < c.createdAt + cfg.cmdTtl && cfg.cmdTtl != 0)
  }

  /** The views of the others, in order. */
  function ExpiredViews(cfg: Config, now: nat, cmds: seq<Cmd>): seq<CmdView> {
    Each(Filter(cmds, (c: Cmd) => now >= c.createdAt + cfg.cmdTtl || cfg.cmdTtl == 0),
         (c: Cmd) => c.view.(state := Expired, finished := Some(now), elapsed := Some(if now >= c.createdAt then now - c.createdAt else 0),
                             error := Some(TooOld(cfg.cmdTtl))))
  }

  /** A PLC that polls over HTTP, is up, and has been silent for more than three heartbeats. */
  predicate GoneSilent(cfg: Config, st: Plc, now: nat) {
    st.mode == Active && st.framing == Some(Http) && st.connected && st.lastRxAt.Some? && now > st.lastRxAt.value + cfg.heartbeat3
  }

  /** What a tick makes of an entry: old commands go to the history, a silent link goes down, all else stays. */
  predicate Ticked(cfg: Config, st: Plc, st': Plc, now: nat) {
    && st'.cmds == Left(cfg, now, st.cmds)
    && Appended(st.history, ExpiredViews(cfg, now, st.cmds), cfg.historyCap, st'.history)
    && if GoneSilent(cfg, st, now)
       then st' == st.(cmds := st'.cmds, history := st'.history, connected := false, disconnects := st.disconnects + 1, lastError := Some("no request"))
       else st' == st.(cmds := st'.cmds, history := st'.history)
  }

  lemma LeftIs(cfg: Config, now: nat, cmds: seq<Cmd>)
    ensures Keep(cmds, OlderThan(now, cfg.cmdTtl)) == Left(cfg, now, cmds)
  {
    KeepIsFilter(cmds, OlderThan(now, cfg.cmdTtl), (c: Cmd) => now < c.createdAt + cfg.cmdTtl && cfg.cmdTtl != 0);
  }

  lemma ExpiredIs(cfg: Config, now: nat, cmds: seq<Cmd>)
    ensures EndedAll(Take(cmds, OlderThan(now, cfg.cmdTtl)), ExpiredEnding(cfg), now) == ExpiredViews(cfg, now, cmds)
  {
    TakeIsFilter(cmds, OlderThan(now, cfg.cmdTtl), (c: Cmd) => now >= c.createdAt + cfg.cmdTtl || cfg.cmdTtl == 0);
  }

  lemma TickOne(cfg: Config, st: Plc, now: nat)
    ensures Ticked(cfg, st, TickPlc(cfg, st, now), now)
  {
    LeftIs(cfg, now, st.cmds);
    ExpiredIs(cfg, now, st.cmds);
  }

  /** The views of the commands that expire in the PLCs named in `order`. */
  function AllExpired(cfg: Config, h: HubState, order: seq<string>, now: nat): seq<CmdView> {
    if order == [] then []
    else
      var name := order[|order| - 1];
      AllExpired(cfg, h, order[..|order| - 1], now) + if name in h.plcs then ExpiredViews(cfg, now, h.plcs[name].cmds) else []
  }

  /** A tick expires in every PLC it visits exactly the commands that are as old as the time to live, and marks exactly the silent
      links down. */
  lemma {:induction false} TickExactly(cfg: Config, h: HubState, order: seq<string>, now: nat)
    requires forall i, j | 0 <= i < j < |order| :: order[i] != order[j]
    ensures var out := Tick(cfg, h, order, now);
      && out.hub.plcs.Keys == h.plcs.Keys && out.hub == h.(plcs := out.hub.plcs)
      && (forall n | n in h.plcs :: if n in order then Ticked(cfg, h.plcs[n], out.hub.plcs[n], now) else out.hub.plcs[n] == h.plcs[n])
      && out.finished == AllExpired(cfg, h, order, now) && out.handed == [] && out.outbound == []
  {
    if order != [] {
      var front, name := order[..|order| - 1], order[|order| - 1];
      TickExactly(cfg, h, front, now);
      assert name !in front;
      assert order == front + [name];
      if name in h.plcs {
        TickOne(cfg, h.plcs[name], now);
        ExpiredIs(cfg, now, h.plcs[name].cmds);
      }
    }
  }

  // ---------------------------------------------------------------- submitting

  /** The link over which a command goes out at once: up, with a channel, and not one that polls. */
  predicate GoesAtOnce(st: Plc) {
    st.connected && st.tx.Some? && !(st.mode == Active && st.framing == Some(Http))
  }

  /** The new command at the end of the queue. */
  predicate Enqueued(c: Cmd, id: nat, name: string, msg: Message, sent: bool, now: nat) {
    && c.msg == msg && c.createdAt == now
    && c.view == CmdView(id, name, 0, if sent then Sent else Queued, now, if sent then Some(now) else None, None, None, None, None, None, None)
  }

  /** The entry as a submission finds it: an unknown PLC is taken as an active one that never connected. */
  function Found(h: HubState, name: string): Plc {
    if name in h.plcs then h.plcs[name]
    else Plc(name, Active, None, false, None, None, None, None, 0, 0, [], [], 0, None, 0)
  }

  /** A submission is refused for an unknown PLC, or one that neither takes commands at once nor polls, unless it may be queued.
      Otherwise the command stands last in its queue under the next id: sent when the link takes it, else queued. */
  lemma SubmitExactly(h: HubState, name: string, msg: Message, queue: bool, wait: bool, accepts: bool, now: nat)
    ensures var (r, out) := Submit(h, name, msg, queue, wait, accepts, now);
      var st, id := Found(h, name), h.nextCmdId + 1;
      var polls := st.mode == Active && st.framing == Some(Http);
      var sent := GoesAtOnce(st) && accepts;
      if name !in h.plcs && !queue then r == Err(NotFound) && Nothing(h, out)
      else if !GoesAtOnce(st) && !polls && !queue then
        r == Err(NotConnected) && out.hub == h.(nextCmdId := id) && out.finished == [] && out.handed == [] && out.outbound == []
      else
        && name in out.hub.plcs && |out.hub.plcs[name].cmds| == |st.cmds| + 1
        && var c := out.hub.plcs[name].cmds[|st.cmds|];
           && Enqueued(c, id, name, msg, sent, now) && r == Ok(c.view)
           && out.hub.plcs == h.plcs[name := st.(cmds := st.cmds + [c])] && out.hub.nextCmdId == id && out.hub.nextConnId == h.nextConnId
           && out.hub.waiters == (if !wait then h.waiters else h.waiters[id := 1 + if id in h.waiters then h.waiters[id] else 0])
           && out.finished == [] && out.handed == (if sent then [id] else [])
           && out.outbound == if sent then [(st.tx.value, Command(id, msg))] else []
  {
  }

  // ---------------------------------------------------------------- handing out

  /** A queued command becomes sent now; any other stays. */
  predicate HandedOver(c: Cmd, c': Cmd, now: nat) {
    c' == if c.view.state == Queued then c.(view := c.view.(state := Sent, sent := Some(now))) else c
  }

  /** All queued commands are handed out in order with their messages, and are sent from now on; nothing else changes. */
  lemma TakeExactly(h: HubState, name: string, now: nat)
    ensures var (taken, out) := TakeQueued(h, name, now);
      if name !in h.plcs then taken == [] && Nothing(h, out)
      else
        var queued := Filter(h.plcs[name].cmds, (c: Cmd) => c.view.state == Queued);
        && taken == Each(queued, (c: Cmd) => (c.view.id, c.msg)) && out.handed == Each(queued, (c: Cmd) => c.view.id)
        && out.finished == [] && out.outbound == []
        && name in out.hub.plcs && out.hub == h.(plcs := h.plcs[name := h.plcs[name].(cmds := out.hub.plcs[name].cmds)])
        && |out.hub.plcs[name].cmds| == |h.plcs[name].cmds|
        && forall k | 0 <= k < |h.plcs[name].cmds| :: HandedOver(h.plcs[name].cmds[k], out.hub.plcs[name].cmds[k], now)
  {
    if name in h.plcs { TakeIsFilter(h.plcs[name].cmds, AllQueued, (c: Cmd) => c.view.state == Queued); }
  }

  /** Command `k` is the oldest queued one. */
  predicate OldestQueued(cmds: seq<Cmd>, k: nat) {
    k < |cmds| && cmds[k].view.state == Queued && forall j | 0 <= j < k :: cmds[j].view.state != Queued
  }

  /** A poll moves the counter of the PLC on, 1 to 65535 and round, and gives the oldest queued command that number, in its view
      and its message; nothing else changes. */
  lemma PopExactly(h: HubState, name: string, now: nat) returns (k: nat)
    ensures var (msg, out) := PopHttp(h, name, now);
      if name !in h.plcs then msg.None? && Nothing(h, out)
      else
        var st := h.plcs[name];
        var s := if st.seqGen >= 65535 then 1 else st.seqGen + 1;
        && out.finished == [] && out.outbound == []
        && if exists j :: OldestQueued(st.cmds, j) then
             && OldestQueued(st.cmds, k) && msg == Some(st.cmds[k].msg.(seqNo := s)) && out.handed == [st.cmds[k].view.id]
             && out.hub == h.(plcs := h.plcs[name := st.(seqGen := s, cmds := st.cmds[k :=
                  Cmd(st.cmds[k].view.(state := Sent, sent := Some(now), seqNo := s), st.cmds[k].msg.(seqNo := s), st.cmds[k].createdAt)])])
           else msg.None? && out.handed == [] && out.hub == h.(plcs := h.plcs[name := st.(seqGen := s)])
  {
    k := 0;
    if name in h.plcs {
      k := First(h.plcs[name].cmds, AllQueued);
      if k < |h.plcs[name].cmds| { assert OldestQueued(h.plcs[name].cmds, k); }
      if j: nat :| OldestQueued(h.plcs[name].cmds, j) { assert j == k; }
    }
  }

  /** The first command with the id gets the number and counts as sent now. */
  lemma SentExactly(h: HubState, name: string, id: nat, seqNo: nat, now: nat) returns (k: nat)
    ensures var out := CommandSent(h, name, id, seqNo, now);
      if name in h.plcs && exists j :: At(h.plcs[name].cmds, id, j) then
        var cmds := h.plcs[name].cmds;
        && At(cmds, id, k) && (forall j | 0 <= j < k :: !At(cmds, id, j))
        && out.finished == [] && out.handed == [] && out.outbound == []
        && out.hub == h.(plcs := h.plcs[name := h.plcs[name].(cmds := cmds[k :=
             cmds[k].(view := cmds[k].view.(seqNo := seqNo, state := Sent, sent := Some(now)))])])
      else Nothing(h, out)
  {
    k := 0;
    if name in h.plcs {
      k := First(h.plcs[name].cmds, TheId(id));
      if k < |h.plcs[name].cmds| { assert At(h.plcs[name].cmds, id, k); }
      if j: nat :| At(h.plcs[name].cmds, id, j) { assert Picked(TheId(id), h.plcs[name].cmds[j]); }
    }
  }

  // ---------------------------------------------------------------- links

  /** Only the entry of `name` changes, and the last connection id. */
  predicate OnlyEntry(h: HubState, h': HubState, name: string) {
    name in h'.plcs && h' == h.(plcs := h.plcs[name := h'.plcs[name]], nextConnId := h'.nextConnId)
  }

  /** The channel of a connection that was replaced is told to disconnect. */
  predicate OldChannelTold(st: Plc, out: Outcome) {
    out.outbound == if st.tx.Some? then [(st.tx.value, Disconnect)] else []
  }

  /** A new connection of a PLC, known or not: everything about the link is new, the commands and the history stay. */
  lemma AttachExactly(h: HubState, name: string, mode: Mode, framing: Framing, tx: Option<nat>, now: nat)
    ensures var out, st := Attach(h, name, mode, framing, tx, now), Found(h, name);
      && OnlyEntry(h, out.hub, name) && out.hub.nextConnId == h.nextConnId + 1
      && out.finished == [] && out.handed == [] && OldChannelTold(st, out)
      && out.hub.plcs[name] == Plc(st.name, mode, Some(framing), true, Some(now), st.lastRxAt, None, None, st.connects + 1, st.disconnects,
                                   st.cmds, st.history, h.nextConnId + 1, tx, st.seqGen)
  {
  }

  /** Leaving fails exactly what was sent over the connection; a connection that is not the live one leaves nothing. */
  lemma DetachExactly(cfg: Config, h: HubState, name: string, connId: nat, reason: Option<string>, now: nat)
    ensures var out := Detach(cfg, h, name, connId, reason, now);
      if name !in h.plcs || h.plcs[name].connId != connId || !h.plcs[name].connected then Nothing(h, out)
      else
        var st := h.plcs[name];
        var gone := Filter(st.cmds, (c: Cmd) => c.view.state == Sent);
        && OnlyEntry(h, out.hub, name) && out.hub.nextConnId == h.nextConnId && out.handed == [] && out.outbound == []
        && |out.finished| == |gone| && (forall k | 0 <= k < |gone| :: EndsAs(gone[k], out.finished[k], Failed, Some(LinkClosed(reason)), now))
        && Appended(st.history, out.finished, cfg.historyCap, out.hub.plcs[name].history)
        && out.hub.plcs[name] == st.(connected := false, tx := None, disconnects := st.disconnects + 1, lastError := reason,
             cmds := Filter(st.cmds, (c: Cmd) => c.view.state != Sent), history := out.hub.plcs[name].history)
  {
    if name in h.plcs {
      KeepIsFilter(h.plcs[name].cmds, AllSent, (c: Cmd) => c.view.state != Sent);
      TakeIsFilter(h.plcs[name].cmds, AllSent, (c: Cmd) => c.view.state == Sent);
    }
  }

  /** A request of a PLC that polls: when it is not yet connected that way, it becomes so, and what was live is replaced. */
  lemma TouchExactly(h: HubState, name: string, now: nat)
    ensures var out, st := TouchHttp(h, name, now), Found(h, name);
      && OnlyEntry(h, out.hub, name) && out.hub.nextConnId == h.nextConnId + 1 && out.finished == [] && out.handed == []
      && if st.connected && st.framing == Some(Http) && st.mode == Active then
           out.outbound == [] && out.hub.plcs[name] == st.(lastRxAt := Some(now))
         else
           && OldChannelTold(st, out)
           && out.hub.plcs[name] == Plc(st.name, Active, Some(Http), true, Some(now), Some(now), st.registryOk, None, st.connects + 1, st.disconnects,
                                        st.cmds, st.history, h.nextConnId + 1, None, st.seqGen)
  {
  }

  /** An entry is made when it is missing; the mode is the new one, the framing only when one is given. A received message marks
      the time in the entry of a known PLC. */
  lemma EntryExactly(h: HubState, name: string, mode: Mode, framing: Option<Framing>, now: nat)
    ensures var out, st := EnsurePlc(h, name, mode, framing), if name in h.plcs then h.plcs[name] else Found(h, name).(mode := mode);
      out == Outcome(h.(plcs := h.plcs[name := st.(mode := mode, framing := if framing.Some? then framing else st.framing)]), [], [], [])
    ensures Received(h, name, now)
         == Outcome(if name in h.plcs then h.(plcs := h.plcs[name := h.plcs[name].(lastRxAt := Some(now))]) else h, [], [], [])
  {
  }
}
