/** The demo robot as a task machine: `apps/gr-console/src/demo.rs`, `Side::tick`. One tick takes in a command, files the task
    that ended, runs a Complete or Delete, and executes. What becomes of every accepted task is kept in a ledger. */
module DemoSpec {
  import opened Wrappers

  const QUEUE := 4
  const RING := 10
  const STEPS := 7
  const UP := 0x40
  const MOVE := 0x43
  const MEASURE := 0x44

  datatype Key = Key(workId: nat, taskId: nat)

  /** `rest` stands for the other fields of a task. */
  datatype Task = Task(key: Key, kind: nat, cell: nat, item: nat, rest: nat)

  datatype Header = Header(protocol: nat, cmdId: nat, cmd: nat, src: nat, dst: nat, seqNo: nat)

  datatype Running = Running(task: Task, step: nat, since: nat, stepMs: nat)

  datatype Ended = Ended(task: Task, canceled: bool)

  datatype TaskOp = Complete(key: Key) | Delete(workId: nat, taskId: nat)

  /** The flags of RES.Data[0] and the validation code. */
  datatype Reply = Reply(wrongRobot: bool, duplicate: bool, invalid: bool, full: bool, validation: nat)

  datatype Robot = Robot(
    queue: seq<Task>, now: Option<Running>, ended: Option<Ended>,
    completed: seq<Task>, canceled: seq<Task>, rejected: seq<Task>,
    pending: Option<(Header, Task)>, lastHeader: Header, op: Option<TaskOp>, reply: Reply)

  /** Everything that ever happened to tasks, oldest first; `lost` are queued tasks that went away with a task of the same
      key. */
  datatype Ledger = Ledger(accepted: seq<Task>, rejected: seq<Task>, completed: seq<Task>, canceled: seq<Task>, lost: seq<Task>)

  datatype World = World(r: Robot, l: Ledger)

  const START := World(
    Robot([], None, None, [], [], [], None, Header(0, 0, 0, 0, 0, 0), None, Reply(false, false, false, false, 0)),
    Ledger([], [], [], [], []))

  // ---------------------------------------------------------------- rings

  function First<T>(s: seq<T>, n: nat): seq<T> {
    if |s| <= n then s else s[..n]
  }

  /** The newest entry first, ten at most. */
  function RingPush(ring: seq<Task>, t: Task): seq<Task> {
    First([t] + ring, RING)
  }

  function RingPushAll(ring: seq<Task>, ts: seq<Task>): seq<Task> {
    if ts == [] then ring else RingPush(RingPushAll(ring, ts[..|ts| - 1]), ts[|ts| - 1])
  }

  // ---------------------------------------------------------------- picking tasks

  datatype Sel = ByKey(k: Key) | ByWork(w: nat)

  predicate Covers(sel: Sel, k: Key) {
    match sel
    case ByKey(key) => k == key
    case ByWork(w) => k.workId == w
  }

  predicate Hit(sel: Sel, t: Task) {
    Covers(sel, t.key)
  }

  function Kept(ts: seq<Task>, sel: Sel): seq<Task> {
    if ts == [] then [] else (if Hit(sel, ts[0]) then [] else [ts[0]]) + Kept(ts[1..], sel)
  }

  function Hits(ts: seq<Task>, sel: Sel): seq<Task> {
    if ts == [] then [] else (if Hit(sel, ts[0]) then [ts[0]] else []) + Hits(ts[1..], sel)
  }

  function Position(ts: seq<Task>, sel: Sel): (i: nat)
    ensures i <= |ts| && (i < |ts| ==> Hit(sel, ts[i])) && forall j | 0 <= j < i :: !Hit(sel, ts[j])
  {
    if ts == [] || Hit(sel, ts[0]) then 0 else 1 + Position(ts[1..], sel)
  }

  /** A Delete without a task id means every task of the work. */
  function SelOf(op: TaskOp): Sel {
    match op
    case Complete(k) => ByKey(k)
    case Delete(w, t) => if t == 0 then ByWork(w) else ByKey(Key(w, t))
  }

  // ---------------------------------------------------------------- the stages of a tick

  predicate IsStation(cell: nat) {
    2001 <= cell <= 2999 && 1 <= cell % 100 <= 32
  }

  /** `known`: the cell or station table holds the cell of the task. */
  function Validation(t: Task, known: bool): nat {
    if t.cell == 0 then 401
    else if !known then (if IsStation(t.cell) then 419 else 429)
    else if t.item == 0 && t.kind != MOVE then 501
    else if !(UP <= t.kind <= MEASURE) then 203
    else 1
  }

  function ReplyTo(r: Robot, dst: nat, h: Header, t: Task, known: bool): Reply {
    var v := Validation(t, known);
    var full := |r.queue| >= QUEUE;
    Reply(h.dst != dst, h == r.lastHeader, v != 1, full, if full then 110 else v)
  }

  predicate Accepted(a: Reply) {
    !a.wrongRobot && !a.duplicate && !a.invalid && !a.full && a.validation == 1
  }

  function Intake(w: World, dst: nat, known: bool): World {
    match w.r.pending
    case None => w
    case Some((h, t)) =>
      var a := ReplyTo(w.r, dst, h, t, known);
      var r := w.r.(pending := None, lastHeader := h, reply := a);
      if Accepted(a) then World(r.(queue := r.queue + [t]), w.l.(accepted := w.l.accepted + [t]))
      else World(r.(rejected := RingPush(r.rejected, t)), w.l.(rejected := w.l.rejected + [t]))
  }

  /** The task that ended in the last tick goes to its ring. */
  function Flush(w: World): World {
    match w.r.ended
    case None => w
    case Some(Ended(t, true)) =>
      World(w.r.(ended := None, canceled := RingPush(w.r.canceled, t)), w.l.(canceled := w.l.canceled + [t]))
    case Some(Ended(t, false)) =>
      World(w.r.(ended := None, completed := RingPush(w.r.completed, t)), w.l.(completed := w.l.completed + [t]))
  }

  /** The running task ends; every queued task with its key goes with it. */
  function EndRunning(w: World, t: Task, canceled: bool): World {
    World(w.r.(now := None, queue := Kept(w.r.queue, ByKey(t.key)), ended := Some(Ended(t, canceled))),
          w.l.(lost := w.l.lost + Rest(Hits(w.r.queue, ByKey(t.key)))))
  }

  function Rest(ts: seq<Task>): seq<Task> {
    if ts == [] then [] else ts[1..]
  }

  /** Queued tasks are canceled without having run. */
  function CancelQueued(w: World, sel: Sel): World {
    var gone := Hits(w.r.queue, sel);
    World(w.r.(queue := Kept(w.r.queue, sel), canceled := RingPushAll(w.r.canceled, gone)), w.l.(canceled := w.l.canceled + gone))
  }

  predicate Runs(r: Robot, sel: Sel) {
    r.now.Some? && Hit(sel, r.now.value.task)
  }

  function DeleteTasks(w: World, sel: Sel): World {
    CancelQueued(if Runs(w.r, sel) then EndRunning(w, w.r.now.value.task, true) else w, sel)
  }

  function CompleteTask(w: World, sel: Sel): World {
    if Runs(w.r, sel) then EndRunning(w, w.r.now.value.task, false)
    else
      var i := Position(w.r.queue, sel);
      if i == |w.r.queue| then w
      else
        var t := w.r.queue[i];
        World(w.r.(queue := w.r.queue[..i] + w.r.queue[i + 1..], completed := RingPush(w.r.completed, t)),
              w.l.(completed := w.l.completed + [t]))
  }

  function Ops(w: World): World {
    if w.r.op.None? then w
    else
      var sel, w1 := SelOf(w.r.op.value), w.(r := w.r.(op := None));
      if w.r.op.value.Delete? then DeleteTasks(w1, sel) else CompleteTask(w1, sel)
  }

  /** The next task is loaded when none runs and none has just ended. */
  function Load(w: World, now: nat, stepMs: nat): World {
    if w.r.now.Some? || w.r.ended.Some? || w.r.queue == [] then w
    else w.(r := w.r.(now := Some(Running(w.r.queue[0], 0, now, stepMs))))
  }

  function Execute(w: World, now: nat, stepMs: nat): World {
    match w.r.now
    case None => w
    case Some(run) =>
      if now <= run.since + run.stepMs then w
      else if run.step + 1 >= STEPS then EndRunning(w, run.task, false)
      else w.(r := w.r.(now := Some(Running(run.task, run.step + 1, now, stepMs))))
  }

  function Tick(w: World, dst: nat, known: bool, now: nat, stepMs: nat): World {
    Execute(Load(Ops(Flush(Intake(w, dst, known))), now, stepMs), now, stepMs)
  }

  // ---------------------------------------------------------------- what happens between ticks

  datatype Input =
    | Submit(h: Header, t: Task)
    | Request(op: TaskOp)
    | Tock(known: bool, now: nat, stepMs: nat)

  function WorkOf(op: TaskOp): nat {
    match op
    case Complete(k) => k.workId
    case Delete(w, _) => w
  }

  /** A command waits for the next tick, replacing one that still waits; a request without a work id re-arms. */
  function Step(w: World, dst: nat, i: Input): World {
    match i
    case Submit(h, t) => w.(r := w.r.(pending := Some((h, t))))
    case Request(op) => w.(r := w.r.(op := if WorkOf(op) == 0 then None else Some(op)))
    case Tock(known, now, stepMs) => Tick(w, dst, known, now, stepMs)
  }

  function Run(w: World, dst: nat, inputs: seq<Input>): World {
    if inputs == [] then w else Step(Run(w, dst, inputs[..|inputs| - 1]), dst, inputs[|inputs| - 1])
  }
}
