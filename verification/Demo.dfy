/** The robot of the demo, changed in place tick by tick: `apps/gr-console/src/demo.rs`, `Side`. */
module Demo {
  import opened Wrappers
  import opened DemoSpec
  import opened DemoTheorems

  /** `ring_push` */
  method PushRing(ring: seq<Task>, t: Task) returns (r: seq<Task>)
    ensures r == RingPush(ring, t)
  {
    r := [t] + ring;
    while |r| > RING
      invariant RING <= |r| || r == [t] + ring
      invariant |r| <= |ring| + 1 && r == ([t] + ring)[..|r|]
    {
      r := r[..|r| - 1];
    }
  }

  method PushRingAll(ring: seq<Task>, ts: seq<Task>) returns (r: seq<Task>)
    ensures r == RingPushAll(ring, ts)
  {
    r := ring;
    for i := 0 to |ts|
      invariant r == RingPushAll(ring, ts[..i])
    {
      r := PushRing(r, ts[i]);
      assert ts[..i + 1][..i] == ts[..i];
    }
    assert ts[..|ts|] == ts;
  }

  lemma PickCons(t: Task, ts: seq<Task>, sel: Sel)
    ensures Hits([t] + ts, sel) == (if Hit(sel, t) then [t] else []) + Hits(ts, sel)
    ensures Kept([t] + ts, sel) == (if Hit(sel, t) then [] else [t]) + Kept(ts, sel)
  {
    assert ([t] + ts)[1..] == ts;
  }

  /** Of the tasks a Delete removes, those with the key of the running task are the running one and its doubles. */
  lemma {:induction false} RemovedSplit(queue: seq<Task>, sel: Sel, k: Key)
    requires Covers(sel, k)
    ensures Hits(Hits(queue, sel), ByKey(k)) == Hits(queue, ByKey(k))
    ensures Kept(Hits(queue, sel), ByKey(k)) == Hits(Kept(queue, ByKey(k)), sel)
    ensures Kept(Kept(queue, ByKey(k)), sel) == Kept(queue, sel)
  {
    if queue != [] {
      var t, rest := queue[0], queue[1..];
      RemovedSplit(rest, sel, k);
      if Hit(sel, t) { PickCons(t, Hits(rest, sel), ByKey(k)); }
      if !Hit(ByKey(k), t) { PickCons(t, Kept(rest, ByKey(k)), sel); }
      assert [] + Hits(rest, sel) == Hits(rest, sel) && [] + Kept(rest, ByKey(k)) == Kept(rest, ByKey(k));
    }
  }

  /** A Delete in the order in which it is carried out: the queue first, then the running task, then the rings. */
  function DeleteInPlace(w: World, sel: Sel): World {
    var removed := Hits(w.r.queue, sel);
    var queue := Kept(w.r.queue, sel);
    if Runs(w.r, sel) then
      var t := w.r.now.value.task;
      var gone := Kept(removed, ByKey(t.key));
      World(w.r.(queue := queue, now := None, ended := Some(Ended(t, true)), canceled := RingPushAll(w.r.canceled, gone)),
            w.l.(lost := w.l.lost + Rest(Hits(removed, ByKey(t.key))), canceled := w.l.canceled + gone))
    else
      World(w.r.(queue := queue, canceled := RingPushAll(w.r.canceled, removed)), w.l.(canceled := w.l.canceled + removed))
  }

  /** It comes to the same as ending the running task first. */
  lemma DeleteInPlaceIs(w: World, sel: Sel)
    ensures DeleteInPlace(w, sel) == DeleteTasks(w, sel)
  {
    if Runs(w.r, sel) { RemovedSplit(w.r.queue, sel, w.r.now.value.task.key); }
  }

  class Side {
    const dst: nat
    var queue: seq<Task>
    var now: Option<Running>
    var ended: Option<Ended>
    var completed: seq<Task>
    var canceled: seq<Task>
    var rejected: seq<Task>
    var pending: Option<(Header, Task)>
    var lastHeader: Header
    var op: Option<TaskOp>
    var reply: Reply
    ghost var ledger: Ledger

    ghost function State(): World
      reads this
    {
      World(Robot(queue, now, ended, completed, canceled, rejected, pending, lastHeader, op, reply), ledger)
    }

    ghost predicate Valid()
      reads this
    {
      Inv(State())
    }

    constructor (dst: nat)
      ensures this.dst == dst && State() == START && Valid()
    {
      this.dst := dst;
      queue, now, ended, completed, canceled, rejected := [], None, None, [], [], [];
      pending, lastHeader, op := None, Header(0, 0, 0, 0, 0, 0), None;
      reply := Reply(false, false, false, false, 0);
      ledger := Ledger([], [], [], [], []);
      new;
      RunKeeps(dst, []);
    }

    method Submit(h: Header, t: Task)
      requires Valid()
      modifies this`pending
      ensures Valid() && State() == Step(old(State()), dst, Input.Submit(h, t))
    {
      SameTasks(State(), Step(State(), dst, Input.Submit(h, t)));
      pending := Some((h, t));
    }

    method Request(o: TaskOp)
      requires Valid()
      modifies this`op
      ensures Valid() && State() == Step(old(State()), dst, Input.Request(o))
    {
      SameTasks(State(), Step(State(), dst, Input.Request(o)));
      op := if WorkOf(o) == 0 then None else Some(o);
    }

    method TakeIn(known: bool)
      modifies this
      ensures State() == Intake(old(State()), dst, known)
    {
      if pending.None? { return; }
      var (h, t) := pending.value;
      pending := None;
      var validation := Validation(t, known);
      reply := Reply(h.dst != dst, h == lastHeader, validation != 1, false, validation);
      if |queue| >= QUEUE { reply := reply.(full := true, validation := 110); }
      lastHeader := h;
      if Accepted(reply) {
        queue := queue + [t];
        ledger := ledger.(accepted := ledger.accepted + [t]);
      } else {
        rejected := PushRing(rejected, t);
        ledger := ledger.(rejected := ledger.rejected + [t]);
      }
    }

    method FileEnded()
      modifies this
      ensures State() == Flush(old(State()))
    {
      if ended.None? { return; }
      var e := ended.value;
      ended := None;
      if e.canceled {
        canceled := PushRing(canceled, e.task);
        ledger := ledger.(canceled := ledger.canceled + [e.task]);
      } else {
        completed := PushRing(completed, e.task);
        ledger := ledger.(completed := ledger.completed + [e.task]);
      }
    }

    method RunDelete(sel: Sel)
      modifies this
      ensures State() == DeleteInPlace(old(State()), sel)
    {
      var removed := Hits(queue, sel);
      queue := Kept(queue, sel);
      if now.Some? && Hit(sel, now.value.task) {
        var t := now.value.task;
        ledger := ledger.(lost := ledger.lost + Rest(Hits(removed, ByKey(t.key))));
        removed := Kept(removed, ByKey(t.key));
        now := None;
        ended := Some(Ended(t, true));
      }
      canceled := PushRingAll(canceled, removed);
      ledger := ledger.(canceled := ledger.canceled + removed);
    }

    method RunComplete(sel: Sel)
      modifies this
      ensures State() == CompleteTask(old(State()), sel)
    {
      if now.Some? && Hit(sel, now.value.task) {
        var r := now.value;
        End(r.task, false);
      } else {
        var i := Position(queue, sel);
        if i < |queue| {
          var t := queue[i];
          queue := queue[..i] + queue[i + 1..];
          completed := PushRing(completed, t);
          ledger := ledger.(completed := ledger.completed + [t]);
        }
      }
    }

    method End(t: Task, isCanceled: bool)
      modifies this
      ensures State() == EndRunning(old(State()), t, isCanceled)
    {
      ledger := ledger.(lost := ledger.lost + Rest(Hits(queue, ByKey(t.key))));
      now := None;
      queue := Kept(queue, ByKey(t.key));
      ended := Some(Ended(t, isCanceled));
    }

    method RunOp()
      modifies this
      ensures State() == Ops(old(State()))
    {
      if op.None? { return; }
      var o := op.value;
      op := None;
      DeleteInPlaceIs(State(), SelOf(o));
      if o.Delete? { RunDelete(SelOf(o)); } else { RunComplete(SelOf(o)); }
    }

    method LoadNext(at: nat, stepMs: nat)
      modifies this
      ensures State() == Load(old(State()), at, stepMs)
    {
      if now.None? && ended.None? && queue != [] { now := Some(Running(queue[0], 0, at, stepMs)); }
    }

    method Advance(at: nat, stepMs: nat)
      modifies this
      ensures State() == Execute(old(State()), at, stepMs)
    {
      if now.Some? && at > now.value.since + now.value.stepMs {
        var r := now.value;
        r := r.(step := r.step + 1, since := at, stepMs := stepMs);
        now := Some(r);
        if r.step >= STEPS { End(r.task, false); }
      }
    }

    /** One tick. */
    method Tick(known: bool, at: nat, stepMs: nat)
      requires Valid()
      modifies this
      ensures Valid() && State() == Step(old(State()), dst, Tock(known, at, stepMs))
    {
      TickKeeps(State(), dst, known, at, stepMs);
      TakeIn(known);
      FileEnded();
      RunOp();
      LoadNext(at, stepMs);
      Advance(at, stepMs);
    }
  }
}
