/** What each stage of a tick does to the tasks of the demo robot, said in the keys of the tasks alone: `apps/gr-console/src/demo.rs`. */
module DemoExactly {
  import opened Wrappers
  import opened DemoSpec

  lemma {:induction false} KeptIsFilter(ts: seq<Task>, sel: Sel, stays: Task -> bool)
    requires forall t :: Hit(sel, t) <==> !stays(t)
    ensures Kept(ts, sel) == Filter(ts, stays)
  {
    if ts != [] { KeptIsFilter(ts[1..], sel, stays); }
  }

  lemma {:induction false} HitsIsFilter(ts: seq<Task>, sel: Sel, goes: Task -> bool)
    requires forall t :: Hit(sel, t) <==> goes(t)
    ensures Hits(ts, sel) == Filter(ts, goes)
  {
    if ts != [] { HitsIsFilter(ts[1..], sel, goes); }
  }

  /** The newest ten of `ts`, newest first, on top of what was in the ring; the last of `ts` is the newest. */
  predicate Pushed(ring: seq<Task>, ts: seq<Task>, ring': seq<Task>) {
    && |ring'| == (if |ts| + |ring| <= 10 then |ts| + |ring| else if |ts| == 0 then |ring| else 10)
    && forall k | 0 <= k < |ring'| :: ring'[k] == if k < |ts| then ts[|ts| - 1 - k] else ring[k - |ts|]
  }

  lemma {:induction false} PushedAll(ring: seq<Task>, ts: seq<Task>)
    requires |ring| <= 10
    ensures Pushed(ring, ts, RingPushAll(ring, ts))
  {
    if ts != [] { PushedAll(ring, ts[..|ts| - 1]); }
  }

  /** Nothing but the tasks changes. */
  predicate SameOtherwise(r: Robot, r': Robot) {
    r'.pending == r.pending && r'.lastHeader == r.lastHeader && r'.reply == r.reply && r'.rejected == r.rejected
  }

  // ---------------------------------------------------------------- a Delete

  /** The task that a Delete speaks of: the one with the key, or without a task id any of the work. */
  predicate Speaks(workId: nat, taskId: nat, t: Task) {
    t.key.workId == workId && (taskId == 0 || t.key.taskId == taskId)
  }

  /** The tasks of the queue that a Delete cancels: those it speaks of, except doubles of the running task when that one goes
      too. */
  function CancelledBy(r: Robot, workId: nat, taskId: nat): seq<Task> {
    if r.now.Some? && Speaks(workId, taskId, r.now.value.task)
    then Filter(r.queue, (t: Task) => Speaks(workId, taskId, t) && t.key != r.now.value.task.key)
    else Filter(r.queue, (t: Task) => Speaks(workId, taskId, t))
  }

  lemma {:induction false} KeptOnce(ts: seq<Task>, a: Sel, b: Sel)
    ensures Kept(Kept(ts, a), b) == Filter(ts, (t: Task) => !Hit(a, t) && !Hit(b, t))
    ensures Hits(Kept(ts, a), b) == Filter(ts, (t: Task) => !Hit(a, t) && Hit(b, t))
  {
    if ts != [] {
      KeptOnce(ts[1..], a, b);
      assert ([ts[0]] + Kept(ts[1..], a))[1..] == Kept(ts[1..], a);
      assert [] + Kept(ts[1..], a) == Kept(ts[1..], a);
    }
  }

  lemma {:induction false} SameFilter(ts: seq<Task>, f: Task -> bool, g: Task -> bool)
    requires forall t :: f(t) <==> g(t)
    ensures Filter(ts, f) == Filter(ts, g)
  {
    if ts != [] { SameFilter(ts[1..], f, g); }
  }

  lemma SelSpeaks(workId: nat, taskId: nat, t: Task)
    ensures Hit(SelOf(Delete(workId, taskId)), t) <==> Speaks(workId, taskId, t)
  {
  }

  /** A Delete with a task id takes exactly the tasks with that key out of the queue, one without takes exactly those of the work;
      the others keep their order. The running task ends, canceled, if and only if the Delete speaks of it. What was only queued
      goes to the ring of canceled tasks. */
  lemma DeleteExactly(w: World, workId: nat, taskId: nat)
    requires w.r.op == Some(Delete(workId, taskId)) && |w.r.canceled| <= 10
    ensures var w', gone := Ops(w), CancelledBy(w.r, workId, taskId);
      && w'.r.op == None && SameOtherwise(w.r, w'.r) && w'.r.completed == w.r.completed
      && w'.r.queue == Filter(w.r.queue, (t: Task) => !Speaks(workId, taskId, t))
      && Pushed(w.r.canceled, gone, w'.r.canceled) && w'.l.canceled == w.l.canceled + gone
      && if w.r.now.Some? && Speaks(workId, taskId, w.r.now.value.task)
         then w'.r.now == None && w'.r.ended == Some(Ended(w.r.now.value.task, true))
         else w'.r.now == w.r.now && w'.r.ended == w.r.ended
  {
    var sel := SelOf(Delete(workId, taskId));
    forall t ensures Hit(sel, t) <==> Speaks(workId, taskId, t) { SelSpeaks(workId, taskId, t); }
    if w.r.now.Some? && Speaks(workId, taskId, w.r.now.value.task) {
      DeleteRunning(w, workId, taskId);
    } else {
      KeptIsFilter(w.r.queue, sel, (t: Task) => !Speaks(workId, taskId, t));
      HitsIsFilter(w.r.queue, sel, (t: Task) => Speaks(workId, taskId, t));
      PushedAll(w.r.canceled, Hits(w.r.queue, sel));
    }
  }

  lemma DeleteRunning(w: World, workId: nat, taskId: nat)
    requires w.r.op == Some(Delete(workId, taskId)) && |w.r.canceled| <= 10
    requires w.r.now.Some? && Speaks(workId, taskId, w.r.now.value.task)
    ensures var w', gone := Ops(w), CancelledBy(w.r, workId, taskId);
      && w'.r.queue == Filter(w.r.queue, (t: Task) => !Speaks(workId, taskId, t))
      && Pushed(w.r.canceled, gone, w'.r.canceled) && w'.l.canceled == w.l.canceled + gone
      && w'.r.now == None && w'.r.ended == Some(Ended(w.r.now.value.task, true))
  {
    var sel, own := SelOf(Delete(workId, taskId)), ByKey(w.r.now.value.task.key);
    SelSpeaks(workId, taskId, w.r.now.value.task);
    KeptOnce(w.r.queue, own, sel);
    forall t ensures Hit(sel, t) <==> Speaks(workId, taskId, t) { SelSpeaks(workId, taskId, t); }
    SameFilter(w.r.queue, (t: Task) => !Hit(own, t) && !Hit(sel, t), (t: Task) => !Speaks(workId, taskId, t));
    SameFilter(w.r.queue, (t: Task) => !Hit(own, t) && Hit(sel, t), (t: Task) => Speaks(workId, taskId, t) && t.key != w.r.now.value.task.key);
    PushedAll(w.r.canceled, CancelledBy(w.r, workId, taskId));
  }

  // ---------------------------------------------------------------- a Complete

  /** Task `i` is the first of the queue with this key. */
  predicate FirstWith(queue: seq<Task>, key: Key, i: nat) {
    i < |queue| && queue[i].key == key && forall j | 0 <= j < i :: queue[j].key != key
  }

  /** A task ends while it runs: it is the one that ended, and the tasks of the queue with its key go with it. */
  predicate Ends(w: World, w': World, canceled: bool) {
    && w.r.now.Some? && w'.r.now == None && w'.r.ended == Some(Ended(w.r.now.value.task, canceled))
    && w'.r.queue == Filter(w.r.queue, (t: Task) => t.key != w.r.now.value.task.key)
    && w'.r.completed == w.r.completed && w'.r.canceled == w.r.canceled
    && w'.l == w.l.(lost := w'.l.lost)
  }

  lemma EndsExactly(w: World, canceled: bool)
    requires w.r.now.Some?
    ensures Ends(w, EndRunning(w, w.r.now.value.task, canceled), canceled)
  {
    KeptIsFilter(w.r.queue, ByKey(w.r.now.value.task.key), (t: Task) => t.key != w.r.now.value.task.key);
  }

  /** A Complete ends the running task when it has the key, well; else it takes the first queued task with the key out of the queue
      as completed; else it does nothing. */
  lemma CompleteExactly(w: World, key: Key) returns (i: nat)
    requires w.r.op == Some(Complete(key)) && |w.r.completed| <= 10
    ensures var w' := Ops(w);
      && w'.r.op == None && SameOtherwise(w.r, w'.r) && w'.r.canceled == w.r.canceled
      && if w.r.now.Some? && w.r.now.value.task.key == key then Ends(w, w', false)
         else if exists j :: FirstWith(w.r.queue, key, j) then
           && FirstWith(w.r.queue, key, i) && w'.r.queue == w.r.queue[..i] + w.r.queue[i + 1..]
           && Pushed(w.r.completed, [w.r.queue[i]], w'.r.completed) && w'.l == w.l.(completed := w.l.completed + [w.r.queue[i]])
           && w'.r.now == w.r.now && w'.r.ended == w.r.ended
         else w' == w.(r := w.r.(op := None))
  {
    i := Position(w.r.queue, ByKey(key));
    if w.r.now.Some? && w.r.now.value.task.key == key {
      EndsExactly(w.(r := w.r.(op := None)), false);
    } else {
      if i < |w.r.queue| { assert FirstWith(w.r.queue, key, i); }
      if j: nat :| FirstWith(w.r.queue, key, j) { assert Hit(ByKey(key), w.r.queue[j]); }
    }
  }

  /** Without a request nothing happens. */
  lemma NoRequest(w: World)
    requires w.r.op == None
    ensures Ops(w) == w
  {
  }

  // ---------------------------------------------------------------- taking in

  /** The code of a task: what is wrong with it first, or 1. */
  predicate Coded(t: Task, known: bool, v: nat) {
    var station := 2001 <= t.cell <= 2999 && 1 <= t.cell % 100 <= 32;
    && (v == 401 <==> t.cell == 0)
    && (v == 419 <==> t.cell != 0 && !known && station)
    && (v == 429 <==> t.cell != 0 && !known && !station)
    && (v == 501 <==> t.cell != 0 && known && t.item == 0 && t.kind != 0x43)
    && (v == 203 <==> t.cell != 0 && known && (t.item != 0 || t.kind == 0x43) && !(0x40 <= t.kind <= 0x44))
    && (v == 1 <==> t.cell != 0 && known && (t.item != 0 || t.kind == 0x43) && 0x40 <= t.kind <= 0x44)
  }

  /** A command that waits is answered: the flags say what is wrong with it, the code is the one of the task, or 110 when the queue
      has no room. With nothing wrong the task stands last in the queue, else it goes to the ring of rejected tasks. */
  lemma IntakeExactly(w: World, dst: nat, known: bool) returns (v: nat)
    requires |w.r.rejected| <= 10
    ensures w.r.pending.None? ==> Intake(w, dst, known) == w
    ensures w.r.pending.Some? ==>
      var (h, t), w' := w.r.pending.value, Intake(w, dst, known);
      && Coded(t, known, v)
      && w'.r.reply == Reply(h.dst != dst, h == w.r.lastHeader, v != 1, |w.r.queue| >= 4, if |w.r.queue| >= 4 then 110 else v)
      && w'.r.pending == None && w'.r.lastHeader == h && w'.r.now == w.r.now && w'.r.ended == w.r.ended && w'.r.op == w.r.op
      && w'.r.completed == w.r.completed && w'.r.canceled == w.r.canceled
      && if h.dst == dst && h != w.r.lastHeader && v == 1 && |w.r.queue| < 4 then
           w'.r.queue == w.r.queue + [t] && w'.r.rejected == w.r.rejected && w'.l == w.l.(accepted := w.l.accepted + [t])
         else
           w'.r.queue == w.r.queue && Pushed(w.r.rejected, [t], w'.r.rejected) && w'.l == w.l.(rejected := w.l.rejected + [t])
  {
    v := if w.r.pending.Some? then Validation(w.r.pending.value.1, known) else 0;
  }

  // ---------------------------------------------------------------- filing, loading, executing

  /** The task that ended goes to the ring that says how. */
  lemma FlushExactly(w: World)
    requires |w.r.completed| <= 10 && |w.r.canceled| <= 10
    ensures w.r.ended.None? ==> Flush(w) == w
    ensures w.r.ended.Some? ==>
      var e, w' := w.r.ended.value, Flush(w);
      && w'.r == w.r.(ended := None, completed := w'.r.completed, canceled := w'.r.canceled)
      && w'.l == w.l.(completed := w'.l.completed, canceled := w'.l.canceled)
      && if e.canceled
         then Pushed(w.r.canceled, [e.task], w'.r.canceled) && w'.r.completed == w.r.completed
              && w'.l.canceled == w.l.canceled + [e.task] && w'.l.completed == w.l.completed
         else Pushed(w.r.completed, [e.task], w'.r.completed) && w'.r.canceled == w.r.canceled
              && w'.l.completed == w.l.completed + [e.task] && w'.l.canceled == w.l.canceled
  {
  }

  /** The first task of the queue starts, at its first step, when none runs and none has just ended. */
  lemma LoadExactly(w: World, now: nat, stepMs: nat)
    ensures Load(w, now, stepMs) == w.(r := w.r.(now :=
      if w.r.now.None? && w.r.ended.None? && w.r.queue != [] then Some(Running(w.r.queue[0], 0, now, stepMs)) else w.r.now))
  {
  }

  /** The running task moves on when its step has lasted longer than it should, and after the seventh step it ends, well. */
  lemma ExecuteExactly(w: World, now: nat, stepMs: nat)
    ensures var w' := Execute(w, now, stepMs);
      if w.r.now.None? || now - w.r.now.value.since <= w.r.now.value.stepMs then w' == w
      else if w.r.now.value.step < 6 then
        w' == w.(r := w.r.(now := Some(Running(w.r.now.value.task, w.r.now.value.step + 1, now, stepMs))))
      else Ends(w, w', false) && SameOtherwise(w.r, w'.r) && w'.r.op == w.r.op
  {
    if w.r.now.Some? { EndsExactly(w, false); }
  }

  /** A command replaces one that still waits; a request without a work id takes a waiting one back. */
  lemma InputExactly(w: World, dst: nat, h: Header, t: Task, op: TaskOp)
    ensures Step(w, dst, Submit(h, t)) == w.(r := w.r.(pending := Some((h, t))))
    ensures Step(w, dst, Request(op)) == w.(r := w.r.(op :=
      if (op.Complete? && op.key.workId == 0) || (op.Delete? && op.workId == 0) then None else Some(op)))
  {
  }
}
