/** What each call of the PLC link hub does to its state: `apps/plc-link-server/src/hub.rs`.

    Time is a natural number handed to each call, the wire codec has already read the acknowledgement fields of a message,
    and a connection is known by the number of its outbound channel. The class `Hub` is the imperative form. */
module HubSpec {
  import opened Wrappers

  datatype Mode = Active | Passive

  datatype Framing = Frame | Ndjson | Http

  datatype CmdState = Queued | Sent | Done | Rejected | Expired | Cancelled | Failed

  predicate Terminal(s: CmdState) {
    s != Queued && s != Sent
  }

  /** The fields of an Ack payload. */
  datatype AckData = AckData(refType: Option<nat>, refSeq: nat, code: int, text: Option<string>)

  /** `ack` is what the codec reads from the payload; `None` when it cannot. */
  datatype Message = Message(kind: nat, seqNo: nat, payload: string, ack: Option<AckData>)

  datatype Outbound = Send(msg: Message) | Command(id: nat, msg: Message) | Disconnect

  datatype ReplyKind = CommandResult | Ack

  datatype CmdError =
    | LinkClosed(reason: Option<string>)
    | TooOld(ttl: nat)
    | CancelledByApi
    | SendFailed(text: string)
    | Refused(code: Option<int>, note: Option<string>, http: Option<nat>)

  datatype CmdView = CmdView(
    id: nat, plc: string, seqNo: nat, state: CmdState,
    created: nat, sent: Option<nat>, finished: Option<nat>, elapsed: Option<nat>,
    reply: Option<(ReplyKind, Message)>, code: Option<int>, httpStatus: Option<nat>, error: Option<CmdError>)

  datatype Cmd = Cmd(view: CmdView, msg: Message, createdAt: nat)

  datatype Plc = Plc(
    name: string, mode: Mode, framing: Option<Framing>, connected: bool, since: Option<nat>, lastRxAt: Option<nat>,
    registryOk: Option<bool>, lastError: Option<string>, connects: nat, disconnects: nat,
    cmds: seq<Cmd>, history: seq<CmdView>, connId: nat, tx: Option<nat>, seqGen: nat)

  datatype HubState = HubState(plcs: map<string, Plc>, nextCmdId: nat, nextConnId: nat, waiters: map<nat, nat>)

  datatype Config = Config(historyCap: nat, cmdTtl: nat, heartbeat3: nat, commandId: nat, ackId: nat, resultId: nat)

  datatype HubError = NotFound | NotConnected

  /** The new state, the commands that ended (oldest first), the ids handed to a connection, the messages put on
      outbound channels. */
  datatype Outcome = Outcome(hub: HubState, finished: seq<CmdView>, handed: seq<nat>, outbound: seq<(nat, Outbound)>)

  const EMPTY := HubState(map[], 0, 0, map[])

  function NewPlc(name: string, mode: Mode): Plc {
    Plc(name, mode, None, false, None, None, None, None, 0, 0, [], [], 0, None, 0)
  }

  function Quiet(h: HubState): Outcome {
    Outcome(h, [], [], [])
  }

  function PlcOr(h: HubState, name: string, mode: Mode): Plc {
    if name in h.plcs then h.plcs[name] else NewPlc(name, mode)
  }

  // ---------------------------------------------------------------- picking commands

  datatype Pick = AllQueued | AllSent | OlderThan(now: nat, ttl: nat) | TheId(id: nat)

  /** `created_at.elapsed()` */
  function Age(c: Cmd, now: nat): nat {
    if now >= c.createdAt then now - c.createdAt else 0
  }

  predicate Picked(p: Pick, c: Cmd) {
    match p
    case AllQueued => c.view.state == Queued
    case AllSent => c.view.state == Sent
    case OlderThan(now, ttl) => Age(c, now) >= ttl
    case TheId(id) => c.view.id == id
  }

  /** The commands that are not picked, in order. */
  function Keep(cmds: seq<Cmd>, p: Pick): seq<Cmd> {
    if cmds == [] then []
    else (if Picked(p, cmds[0]) then [] else [cmds[0]]) + Keep(cmds[1..], p)
  }

  /** The picked commands, in order. */
  function Take(cmds: seq<Cmd>, p: Pick): seq<Cmd> {
    if cmds == [] then []
    else (if Picked(p, cmds[0]) then [cmds[0]] else []) + Take(cmds[1..], p)
  }

  /** Position of the first picked command, or `|cmds|`. */
  function First(cmds: seq<Cmd>, p: Pick): (i: nat)
    ensures i <= |cmds|
    ensures forall k | 0 <= k < i :: !Picked(p, cmds[k])
    ensures i < |cmds| ==> Picked(p, cmds[i])
  {
    if cmds == [] || Picked(p, cmds[0]) then 0 else 1 + First(cmds[1..], p)
  }

  // ---------------------------------------------------------------- ending commands

  /** What a call notes on the commands it ends. */
  datatype Ending = Ending(
    state: CmdState, error: Option<CmdError>, reply: Option<(ReplyKind, Message)>, code: Option<int>, httpStatus: Option<nat>)

  function Or<T>(a: Option<T>, b: Option<T>): Option<T> {
    if a.Some? then a else b
  }

  function Ended(c: Cmd, e: Ending, now: nat): CmdView {
    c.view.(state := e.state, finished := Some(now), elapsed := Some(Age(c, now)), error := Or(e.error, c.view.error),
            reply := Or(e.reply, c.view.reply), code := Or(e.code, c.view.code), httpStatus := Or(e.httpStatus, c.view.httpStatus))
  }

  function EndedAll(cmds: seq<Cmd>, e: Ending, now: nat): (views: seq<CmdView>)
    ensures |views| == |cmds| && forall k | 0 <= k < |cmds| :: views[k] == Ended(cmds[k], e, now)
  {
    seq(|cmds|, k requires 0 <= k < |cmds| => Ended(cmds[k], e, now))
  }

  function LastN<T>(s: seq<T>, n: nat): (r: seq<T>)
    ensures |r| == if |s| <= n then |s| else n
    ensures r == s[|s| - |r|..]
  {
    if |s| <= n then s else s[|s| - n..]
  }

  /** The history after `views` were recorded one after the other. */
  function Record(history: seq<CmdView>, views: seq<CmdView>, cap: nat): seq<CmdView> {
    if views == [] then history else LastN(history + views, cap)
  }

  /** Every picked command leaves the queue with its final state and goes to the history. */
  function EndPicked(cfg: Config, st: Plc, p: Pick, e: Ending, now: nat): Plc {
    st.(cmds := Keep(st.cmds, p), history := Record(st.history, EndedAll(Take(st.cmds, p), e, now), cfg.historyCap))
  }

  function EndOutcome(cfg: Config, h: HubState, name: string, st: Plc, p: Pick, e: Ending, now: nat): Outcome {
    Outcome(h.(plcs := h.plcs[name := EndPicked(cfg, st, p, e, now)]), EndedAll(Take(st.cmds, p), e, now), [], [])
  }

  // ---------------------------------------------------------------- handing commands out

  function MarkSent(c: Cmd, now: nat): Cmd {
    c.(view := c.view.(state := Sent, sent := Some(now)))
  }

  /** Every picked command is now sent. */
  function SentPicked(cmds: seq<Cmd>, p: Pick, now: nat): (r: seq<Cmd>)
    ensures |r| == |cmds|
    ensures forall k | 0 <= k < |cmds| :: r[k] == if Picked(p, cmds[k]) then MarkSent(cmds[k], now) else cmds[k]
  {
    seq(|cmds|, k requires 0 <= k < |cmds| => if Picked(p, cmds[k]) then MarkSent(cmds[k], now) else cmds[k])
  }

  function Ids(cmds: seq<Cmd>): (ids: seq<nat>)
    ensures |ids| == |cmds| && forall k | 0 <= k < |cmds| :: ids[k] == cmds[k].view.id
  {
    seq(|cmds|, k requires 0 <= k < |cmds| => cmds[k].view.id)
  }

  // ---------------------------------------------------------------- links

  /** `ensure_plc` */
  function EnsurePlc(h: HubState, name: string, mode: Mode, framing: Option<Framing>): Outcome {
    var st := PlcOr(h, name, mode);
    Quiet(h.(plcs := h.plcs[name := st.(mode := mode, framing := if framing.Some? then framing else st.framing)]))
  }

  /** The PLC entry once connection `id` is up. */
  function Joined(st: Plc, mode: Mode, framing: Framing, id: nat, tx: Option<nat>, now: nat): Plc {
    st.(mode := mode, framing := Some(framing), connected := true, since := Some(now), registryOk := None,
        lastError := None, connects := st.connects + 1, connId := id, tx := tx)
  }

  /** The channel of the replaced connection is told to disconnect. */
  function Farewell(tx: Option<nat>): seq<(nat, Outbound)> {
    if tx.Some? then [(tx.value, Disconnect)] else []
  }

  /** `attach`: a new connection takes over. */
  function Attach(h: HubState, name: string, mode: Mode, framing: Framing, tx: Option<nat>, now: nat): Outcome {
    var st := PlcOr(h, name, mode);
    var id := h.nextConnId + 1;
    Outcome(h.(plcs := h.plcs[name := Joined(st, mode, framing, id, tx, now)], nextConnId := id), [], [], Farewell(st.tx))
  }

  /** The PLC entry once its link is down. */
  function Closed(st: Plc, reason: Option<string>): Plc {
    st.(connected := false, tx := None, disconnects := st.disconnects + 1, lastError := reason)
  }

  function LinkEnding(reason: Option<string>): Ending {
    Ending(Failed, Some(LinkClosed(reason)), None, None, None)
  }

  /** `detach`: ignored unless `connId` is the live connection; otherwise what was sent over it fails. */
  function Detach(cfg: Config, h: HubState, name: string, connId: nat, reason: Option<string>, now: nat): Outcome {
    if name !in h.plcs || h.plcs[name].connId != connId || !h.plcs[name].connected then Quiet(h)
    else EndOutcome(cfg, h, name, Closed(h.plcs[name], reason), AllSent, LinkEnding(reason), now)
  }

  /** `touch_http`: a request of an HTTP-active PLC; a live connection of another kind is replaced. */
  function TouchHttp(h: HubState, name: string, now: nat): Outcome {
    var st := PlcOr(h, name, Active).(lastRxAt := Some(now));
    var id := h.nextConnId + 1;
    if st.connected && st.framing == Some(Http) && st.mode == Active then
      Quiet(h.(plcs := h.plcs[name := st], nextConnId := id))
    else
      var st' := st.(mode := Active, framing := Some(Http), connected := true, since := Some(now), lastError := None,
                     connects := st.connects + 1, connId := id, tx := None);
      Outcome(h.(plcs := h.plcs[name := st'], nextConnId := id), [], [], Farewell(st.tx))
  }

  /** The part of `log` that matters here: a received message shows that the PLC is alive. */
  function Received(h: HubState, name: string, now: nat): Outcome {
    if name !in h.plcs then Quiet(h) else Quiet(h.(plcs := h.plcs[name := h.plcs[name].(lastRxAt := Some(now))]))
  }

  // ---------------------------------------------------------------- commands

  predicate HttpActive(st: Plc) {
    st.mode == Active && st.framing == Some(Http)
  }

  predicate LiveLink(st: Plc) {
    st.connected && st.tx.Some? && !HttpActive(st)
  }

  function NewCmd(id: nat, name: string, msg: Message, sentNow: bool, now: nat): Cmd {
    Cmd(CmdView(id, name, 0, if sentNow then Sent else Queued, now, if sentNow then Some(now) else None, None, None,
                None, None, None, None), msg, now)
  }

  /** `waiters.entry(id).or_default()` */
  function WaitersOf(waiters: map<nat, nat>, id: nat): nat {
    if id in waiters then waiters[id] else 0
  }

  /** `submit`: `accepts` says whether the live channel still takes messages. */
  function Submit(h: HubState, name: string, msg: Message, queue: bool, wait: bool, accepts: bool, now: nat)
    : (Result<CmdView, HubError>, Outcome)
  {
    if name !in h.plcs && !queue then (Err(NotFound), Quiet(h))
    else
      var st := PlcOr(h, name, Active);
      var id := h.nextCmdId + 1;
      if !LiveLink(st) && !HttpActive(st) && !queue then (Err(NotConnected), Quiet(h.(nextCmdId := id)))
      else
        var sentNow := LiveLink(st) && accepts;
        var c := NewCmd(id, name, msg, sentNow, now);
        var waiters := if wait then h.waiters[id := WaitersOf(h.waiters, id) + 1] else h.waiters;
        (Ok(c.view),
         Outcome(h.(plcs := h.plcs[name := st.(cmds := st.cmds + [c])], nextCmdId := id, waiters := waiters),
                 [], if sentNow then [id] else [], if sentNow then [(st.tx.value, Command(id, msg))] else []))
  }

  /** `take_queued`: everything queued is handed to the connection. */
  function TakeQueued(h: HubState, name: string, now: nat): (seq<(nat, Message)>, Outcome) {
    if name !in h.plcs then ([], Quiet(h))
    else
      var st := h.plcs[name];
      var q := Take(st.cmds, AllQueued);
      (seq(|q|, k requires 0 <= k < |q| => (q[k].view.id, q[k].msg)),
       Outcome(h.(plcs := h.plcs[name := st.(cmds := SentPicked(st.cmds, AllQueued, now))]), [], Ids(q), []))
  }

  /** `command_sent`: the session reports the sequence number it gave to a command. */
  function CommandSent(h: HubState, name: string, id: nat, seqNo: nat, now: nat): Outcome {
    if name !in h.plcs then Quiet(h)
    else
      var st := h.plcs[name];
      var i := First(st.cmds, TheId(id));
      if i == |st.cmds| then Quiet(h)
      else
        var c := MarkSent(st.cmds[i], now);
        Quiet(h.(plcs := h.plcs[name := st.(cmds := st.cmds[i := c.(view := c.view.(seqNo := seqNo))])]))
  }

  /** `plc_link::codec::next_seq`: 1..65535, 0 is skipped. */
  function NextSeq(s: nat): nat {
    if s >= 65535 then 1 else s + 1
  }

  /** `pop_http_command`: the oldest queued command with a fresh sequence number. */
  function PopHttp(h: HubState, name: string, now: nat): (Option<Message>, Outcome) {
    if name !in h.plcs then (None, Quiet(h))
    else
      var st := h.plcs[name].(seqGen := NextSeq(h.plcs[name].seqGen));
      var i := First(st.cmds, AllQueued);
      if i == |st.cmds| then (None, Quiet(h.(plcs := h.plcs[name := st])))
      else
        var c := MarkSent(st.cmds[i], now);
        var msg := c.msg.(seqNo := st.seqGen);
        (Some(msg),
         Outcome(h.(plcs := h.plcs[name := st.(cmds := st.cmds[i := Cmd(c.view.(seqNo := st.seqGen), msg, c.createdAt)])]),
                 [], [c.view.id], []))
  }

  /** Ends the command with this id, when it is still there. */
  function EndId(cfg: Config, h: HubState, name: string, id: nat, e: Ending, now: nat): Outcome {
    if name !in h.plcs || First(h.plcs[name].cmds, TheId(id)) == |h.plcs[name].cmds| then Quiet(h)
    else EndOutcome(cfg, h, name, h.plcs[name], TheId(id), e, now)
  }

  /** `command_failed_http` */
  function CommandFailed(cfg: Config, h: HubState, name: string, id: nat, err: string, http: Option<nat>, now: nat): Outcome {
    EndId(cfg, h, name, id, Ending(Failed, Some(SendFailed(err)), None, None, http), now)
  }

  /** `cancel` */
  function Cancel(cfg: Config, h: HubState, name: string, id: nat, now: nat): Outcome {
    EndId(cfg, h, name, id, Ending(Cancelled, Some(CancelledByApi), None, None, None), now)
  }

  /** How `reply_inner` reads a message: the sequence number it answers, and how the command ends. */
  function ReadReply(cfg: Config, m: Message, byId: bool, http: Option<nat>): Option<(nat, Ending)> {
    var httpOk := http == None || http == Some(200);
    if m.kind == cfg.resultId && m.kind != 0 then
      var state := if httpOk then Done else Failed;
      Some((m.seqNo, Ending(state, if state == Done then None else Some(Refused(None, None, http)), Some((CommandResult, m)), None, http)))
    else if m.kind == cfg.ackId && m.kind != 0 then
      match m.ack
      case None => None
      case Some(a) =>
        if !byId && a.refType != Some(cfg.commandId) then None
        else
          var state := if a.code == 0 && httpOk then Done else Rejected;
          Some((a.refSeq, Ending(state, if state == Done then None else Some(Refused(Some(a.code), a.text, http)), Some((Ack, m)), Some(a.code), http)))
    else None
  }

  predicate Answers(c: Cmd, seqNo: nat, id: Option<nat>) {
    c.view.state == Sent && (if id.Some? then c.view.id == id.value else c.view.seqNo == seqNo)
  }

  /** Position of the first sent command that the reply answers, or `|cmds|`. */
  function FirstAnswered(cmds: seq<Cmd>, seqNo: nat, id: Option<nat>): (i: nat)
    ensures i <= |cmds|
    ensures forall k | 0 <= k < i :: !Answers(cmds[k], seqNo, id)
    ensures i < |cmds| ==> Answers(cmds[i], seqNo, id)
  {
    if cmds == [] || Answers(cmds[0], seqNo, id) then 0 else 1 + FirstAnswered(cmds[1..], seqNo, id)
  }

  /** `reply_inner`: by id when the reply is the HTTP response of one command, else by sequence number. */
  function Reply(cfg: Config, h: HubState, name: string, m: Message, id: Option<nat>, http: Option<nat>, now: nat): Outcome {
    match ReadReply(cfg, m, id.Some?, http)
    case None => Quiet(h)
    case Some((seqNo, e)) =>
      if (id.None? && seqNo == 0) || name !in h.plcs then Quiet(h)
      else
        var cmds := h.plcs[name].cmds;
        var i := FirstAnswered(cmds, seqNo, id);
        if i == |cmds| then Quiet(h)
        else EndId(cfg, h, name, cmds[i].view.id, e, now)
  }

  // ---------------------------------------------------------------- maintenance

  /** A HTTP-active PLC that has been silent for three heartbeats. */
  predicate Silent(cfg: Config, st: Plc, now: nat) {
    HttpActive(st) && st.connected && st.lastRxAt.Some? && now > st.lastRxAt.value + cfg.heartbeat3
  }

  function TickPlc(cfg: Config, st: Plc, now: nat): Plc {
    var st' := EndPicked(cfg, st, OlderThan(now, cfg.cmdTtl), ExpiredEnding(cfg), now);
    if Silent(cfg, st', now) then
      st'.(connected := false, disconnects := st'.disconnects + 1, lastError := Some("no request"))
    else st'
  }

  function ExpiredEnding(cfg: Config): Ending {
    Ending(Expired, Some(TooOld(cfg.cmdTtl)), None, None, None)
  }

  /** `tick` over the PLCs named in `order` (the server visits them in name order). */
  function Tick(cfg: Config, h: HubState, order: seq<string>, now: nat): Outcome {
    if order == [] then Quiet(h)
    else
      var out := Tick(cfg, h, order[..|order| - 1], now);
      var name := order[|order| - 1];
      if name !in out.hub.plcs then out
      else
        var st := out.hub.plcs[name];
        out.(hub := out.hub.(plcs := out.hub.plcs[name := TickPlc(cfg, st, now)]),
             finished := out.finished + EndedAll(Take(st.cmds, OlderThan(now, cfg.cmdTtl)), ExpiredEnding(cfg), now))
  }

  // ---------------------------------------------------------------- answering

  /** The answers that `deliver` sends for `views`: one per waiter registered under the id. */
  function AnswersFor(waiters: map<nat, nat>, views: seq<CmdView>): seq<CmdView> {
    if views == [] then []
    else
      var v := views[0];
      if v.id in waiters then Repeat(v, waiters[v.id]) + AnswersFor(waiters - {v.id}, views[1..])
      else AnswersFor(waiters, views[1..])
  }

  function Repeat(v: CmdView, n: nat): seq<CmdView> {
    seq(n, _ => v)
  }

  function ViewIds(views: seq<CmdView>): set<nat> {
    set v | v in views :: v.id
  }

  /** `deliver`, a second critical section: the waiters of the finished commands are taken out and answered. */
  function Deliver(h: HubState, views: seq<CmdView>): (HubState, seq<CmdView>) {
    (h.(waiters := h.waiters - ViewIds(views)), AnswersFor(h.waiters, views))
  }
}
