/** What becomes of the tasks of the demo robot, in every run: `apps/gr-console/src/demo.rs`. */
module DemoTheorems {
  import opened Wrappers
  import opened DemoSpec

  // ---------------------------------------------------------------- rings show the end of the history

  /** The last ten, the newest first. */
  function Newest(h: seq<Task>): (r: seq<Task>)
    ensures |r| == if |h| <= RING then |h| else RING
    ensures forall i | 0 <= i < |r| :: r[i] == h[|h| - 1 - i]
  {
    seq(if |h| <= RING then |h| else RING, i requires 0 <= i < (if |h| <= RING then |h| else RING) => h[|h| - 1 - i])
  }

  lemma NewestPush(h: seq<Task>, t: Task)
    ensures Newest(h + [t]) == RingPush(Newest(h), t)
  {
    var a, b := Newest(h + [t]), RingPush(Newest(h), t);
    assert |a| == |b|;
    forall i | 0 <= i < |a| ensures a[i] == b[i] {
      if i > 0 { assert (h + [t])[|h| - i] == h[|h| - i]; }
    }
  }

  lemma {:induction false} NewestPushAll(h: seq<Task>, ts: seq<Task>)
    ensures Newest(h + ts) == RingPushAll(Newest(h), ts)
  {
    if ts == [] {
      assert h + ts == h;
    } else {
      NewestPushAll(h, ts[..|ts| - 1]);
      NewestPush(h + ts[..|ts| - 1], ts[|ts| - 1]);
      assert h + ts == h + ts[..|ts| - 1] + [ts[|ts| - 1]];
    }
  }

  // ---------------------------------------------------------------- the invariant

  function EndedOf(r: Robot): seq<Task> {
    if r.ended.Some? then [r.ended.value.task] else []
  }

  /** Every accepted task is in exactly one of five places. */
  predicate Conserved(w: World) {
    multiset(w.l.accepted) == multiset(w.r.queue) + multiset(EndedOf(w.r)) + multiset(w.l.completed) + multiset(w.l.canceled) + multiset(w.l.lost)
  }

  predicate HasTaskKey(ts: seq<Task>, k: Key) {
    exists i :: 0 <= i < |ts| && ts[i].key == k
  }

  predicate Filed(w: World, k: Key) {
    HasTaskKey(EndedOf(w.r), k) || HasTaskKey(w.l.completed, k) || HasTaskKey(w.l.canceled, k)
  }

  /** A lost task had the key of one that is on record. */
  predicate LostAreFiled(w: World) {
    forall i | 0 <= i < |w.l.lost| :: Filed(w, w.l.lost[i].key)
  }

  /** The running task is the head of the queue, and nothing has just ended. */
  predicate MachineOk(r: Robot) {
    && |r.queue| <= QUEUE
    && (r.now.Some? ==> r.ended.None? && r.queue != [] && r.queue[0] == r.now.value.task && r.now.value.step < STEPS)
  }

  predicate RingsOk(w: World) {
    && w.r.completed == Newest(w.l.completed) && w.r.canceled == Newest(w.l.canceled) && w.r.rejected == Newest(w.l.rejected)
  }

  predicate Inv(w: World) {
    MachineOk(w.r) && RingsOk(w) && Conserved(w) && LostAreFiled(w)
  }

  // ---------------------------------------------------------------- picking keeps the tasks

  lemma Both(a: seq<Task>, b: seq<Task>)
    ensures multiset(a + b) == multiset(a) + multiset(b)
  {
  }

  lemma {:induction false} Partition(ts: seq<Task>, sel: Sel)
    ensures multiset(ts) == multiset(Kept(ts, sel)) + multiset(Hits(ts, sel))
    ensures |Kept(ts, sel)| <= |ts|
  {
    if ts != [] {
      Partition(ts[1..], sel);
      assert ts == [ts[0]] + ts[1..];
      Both([ts[0]], ts[1..]);
      PickedMultisets(ts, sel);
    }
  }

  lemma PickedMultisets(ts: seq<Task>, sel: Sel)
    requires ts != []
    ensures multiset(Kept(ts, sel)) == (if Hit(sel, ts[0]) then multiset([]) else multiset([ts[0]])) + multiset(Kept(ts[1..], sel))
    ensures multiset(Hits(ts, sel)) == (if Hit(sel, ts[0]) then multiset([ts[0]]) else multiset([])) + multiset(Hits(ts[1..], sel))
  {
    Both(if Hit(sel, ts[0]) then [] else [ts[0]], Kept(ts[1..], sel));
    Both(if Hit(sel, ts[0]) then [ts[0]] else [], Hits(ts[1..], sel));
  }

  lemma {:induction false} HitsHit(ts: seq<Task>, sel: Sel)
    ensures forall i | 0 <= i < |Hits(ts, sel)| :: Hit(sel, Hits(ts, sel)[i])
  {
    if ts != [] { HitsHit(ts[1..], sel); }
  }

  /** The first task stays first when it is not picked. */
  lemma HeadKept(ts: seq<Task>, sel: Sel)
    requires ts != [] && !Hit(sel, ts[0])
    ensures Kept(ts, sel) != [] && Kept(ts, sel)[0] == ts[0]
  {
  }

  lemma HasConcat(a: seq<Task>, b: seq<Task>, k: Key)
    ensures HasTaskKey(a + b, k) <==> HasTaskKey(a, k) || HasTaskKey(b, k)
  {
    if HasTaskKey(a, k) {
      var i :| 0 <= i < |a| && a[i].key == k;
      assert (a + b)[i].key == k;
    }
    if HasTaskKey(b, k) {
      var i :| 0 <= i < |b| && b[i].key == k;
      assert (a + b)[|a| + i].key == k;
    }
  }

  /** What is on record stays on record. */
  lemma FiledGrows(w: World, w': World, k: Key, more: seq<Task>, gone: seq<Task>)
    requires Filed(w, k)
    requires w'.l.completed == w.l.completed + more && w'.l.canceled == w.l.canceled + gone
    requires HasTaskKey(EndedOf(w.r), k) ==> EndedOf(w'.r) == EndedOf(w.r) || HasTaskKey(more, k) || HasTaskKey(gone, k)
    ensures Filed(w', k)
  {
    HasConcat(w.l.completed, more, k);
    HasConcat(w.l.canceled, gone, k);
  }

  // ---------------------------------------------------------------- each stage keeps the invariant

  lemma IntakeKeeps(w: World, dst: nat, known: bool)
    requires Inv(w)
    ensures Inv(Intake(w, dst, known))
  {
    if w.r.pending.Some? {
      var w' := Intake(w, dst, known);
      IntakeShape(w, dst, known);
      NewestPush(w.l.rejected, w.r.pending.value.1);
      forall i | 0 <= i < |w.l.lost| ensures Filed(w', w.l.lost[i].key) { assert Filed(w, w.l.lost[i].key); }
    }
  }

  /** The task goes to the end of the queue, which then has room, or to the rejected ones. */
  lemma IntakeShape(w: World, dst: nat, known: bool)
    requires w.r.pending.Some?
    ensures var w', t := Intake(w, dst, known), w.r.pending.value.1;
      && w'.r.now == w.r.now && w'.r.ended == w.r.ended && w'.r.completed == w.r.completed && w'.r.canceled == w.r.canceled
      && w'.l.completed == w.l.completed && w'.l.canceled == w.l.canceled && w'.l.lost == w.l.lost
      && ( || (|w.r.queue| < QUEUE && w'.r.queue == w.r.queue + [t] && w'.l.accepted == w.l.accepted + [t]
               && w'.r.rejected == w.r.rejected && w'.l.rejected == w.l.rejected)
           || (w'.r.queue == w.r.queue && w'.l.accepted == w.l.accepted
               && w'.r.rejected == RingPush(w.r.rejected, t) && w'.l.rejected == w.l.rejected + [t]))
  {
  }

  lemma FlushKeeps(w: World)
    requires Inv(w)
    ensures Inv(Flush(w)) && Flush(w).r.ended.None?
  {
    if w.r.ended.Some? {
      var w', t := Flush(w), w.r.ended.value.task;
      NewestPush(w.l.completed, t);
      NewestPush(w.l.canceled, t);
      var more, gone := if w.r.ended.value.canceled then [] else [t], if w.r.ended.value.canceled then [t] else [];
      assert w.l.completed + [] == w.l.completed && w.l.canceled + [] == w.l.canceled;
      forall i | 0 <= i < |w.l.lost| ensures Filed(w', w.l.lost[i].key) { FiledGrows(w, w', w.l.lost[i].key, more, gone); }
    }
  }

  lemma EndRunningKeeps(w: World, canceled: bool)
    requires Inv(w) && w.r.now.Some?
    ensures Inv(EndRunning(w, w.r.now.value.task, canceled))
  {
    var t := w.r.now.value.task;
    var w' := EndRunning(w, t, canceled);
    var hits := Hits(w.r.queue, ByKey(t.key));
    Partition(w.r.queue, ByKey(t.key));
    HitsHit(w.r.queue, ByKey(t.key));
    assert hits == [t] + Rest(hits);
    forall i | 0 <= i < |w'.l.lost| ensures Filed(w', w'.l.lost[i].key) {
      if i < |w.l.lost| {
        assert Filed(w, w.l.lost[i].key);
      } else {
        assert w'.l.lost[i] == Rest(hits)[i - |w.l.lost|] == hits[i - |w.l.lost| + 1];
        assert EndedOf(w'.r)[0].key == t.key;
      }
    }
  }

  /** What is lost stays on record while the record grows. */
  lemma StillFiled(w: World, w': World, more: seq<Task>, gone: seq<Task>)
    requires LostAreFiled(w) && w'.l.lost == w.l.lost && w'.r.ended == w.r.ended
    requires w'.l.completed == w.l.completed + more && w'.l.canceled == w.l.canceled + gone
    ensures LostAreFiled(w')
  {
    forall i | 0 <= i < |w.l.lost| ensures Filed(w', w.l.lost[i].key) { FiledGrows(w, w', w.l.lost[i].key, more, gone); }
  }

  lemma CancelQueuedKeeps(w: World, sel: Sel)
    requires Inv(w) && !Runs(w.r, sel)
    ensures Inv(CancelQueued(w, sel))
  {
    var w', gone := CancelQueued(w, sel), Hits(w.r.queue, sel);
    Partition(w.r.queue, sel);
    NewestPushAll(w.l.canceled, gone);
    if w.r.now.Some? { HeadKept(w.r.queue, sel); }
    assert w.l.completed + [] == w.l.completed;
    Both(w.l.canceled, gone);
    StillFiled(w, w', [], gone);
  }

  lemma TakeOut(ts: seq<Task>, i: nat)
    requires i < |ts|
    ensures multiset(ts) == multiset(ts[..i] + ts[i + 1..]) + multiset([ts[i]])
    ensures i > 0 ==> (ts[..i] + ts[i + 1..])[0] == ts[0]
  {
    assert ts == ts[..i] + [ts[i]] + ts[i + 1..];
    Both(ts[..i] + [ts[i]], ts[i + 1..]);
    Both(ts[..i], [ts[i]]);
    Both(ts[..i], ts[i + 1..]);
  }

  lemma CompleteQueuedKeeps(w: World, sel: Sel, w': World)
    requires Inv(w) && !Runs(w.r, sel) && Position(w.r.queue, sel) < |w.r.queue|
    requires var i := Position(w.r.queue, sel);
      w' == World(w.r.(queue := w.r.queue[..i] + w.r.queue[i + 1..], completed := RingPush(w.r.completed, w.r.queue[i])),
                  w.l.(completed := w.l.completed + [w.r.queue[i]]))
    ensures Inv(w')
  {
    var i := Position(w.r.queue, sel);
    var t := w.r.queue[i];
    NewestPush(w.l.completed, t);
    TakeOut(w.r.queue, i);
    Both(w.l.completed, [t]);
    assert w.l.canceled + [] == w.l.canceled;
    StillFiled(w, w', [t], []);
  }

  /** Nothing changed that the invariant speaks of. */
  lemma SameTasks(w: World, w': World)
    requires Inv(w) && w'.l == w.l && w'.r == w.r.(op := w'.r.op, pending := w'.r.pending)
    ensures Inv(w')
  {
    forall i | 0 <= i < |w.l.lost| ensures Filed(w', w.l.lost[i].key) { assert Filed(w, w.l.lost[i].key); }
  }

  lemma DeleteKeeps(w: World, sel: Sel)
    requires Inv(w)
    ensures Inv(DeleteTasks(w, sel))
  {
    if Runs(w.r, sel) {
      EndRunningKeeps(w, true);
      CancelQueuedKeeps(EndRunning(w, w.r.now.value.task, true), sel);
    } else {
      CancelQueuedKeeps(w, sel);
    }
  }

  lemma CompleteKeeps(w: World, sel: Sel)
    requires Inv(w)
    ensures Inv(CompleteTask(w, sel))
  {
    if Runs(w.r, sel) {
      EndRunningKeeps(w, false);
    } else if Position(w.r.queue, sel) < |w.r.queue| {
      CompleteQueuedKeeps(w, sel, CompleteTask(w, sel));
    }
  }

  lemma OpsKeeps(w: World)
    requires Inv(w)
    ensures Inv(Ops(w))
  {
    if w.r.op.Some? {
      var sel, w1 := SelOf(w.r.op.value), w.(r := w.r.(op := None));
      SameTasks(w, w1);
      if w.r.op.value.Delete? { DeleteKeeps(w1, sel); } else { CompleteKeeps(w1, sel); }
    }
  }

  lemma ExecuteKeeps(w: World, now: nat, stepMs: nat)
    requires Inv(w)
    ensures Inv(Load(w, now, stepMs)) && Inv(Execute(w, now, stepMs))
  {
    var a, b := Load(w, now, stepMs), Execute(w, now, stepMs);
    forall i | 0 <= i < |w.l.lost| ensures Filed(a, w.l.lost[i].key) { assert Filed(w, w.l.lost[i].key); }
    if w.r.now.Some? {
      if now > w.r.now.value.since + w.r.now.value.stepMs && w.r.now.value.step + 1 >= STEPS {
        EndRunningKeeps(w, false);
      } else {
        forall i | 0 <= i < |w.l.lost| ensures Filed(b, w.l.lost[i].key) { assert Filed(w, w.l.lost[i].key); }
      }
    }
  }

  lemma StepKeeps(w: World, dst: nat, i: Input)
    requires Inv(w)
    ensures Inv(Step(w, dst, i))
  {
    match i
    case Tock(known, now, stepMs) => TickKeeps(w, dst, known, now, stepMs);
    case _ => SameTasks(w, Step(w, dst, i));
  }

  lemma TickKeeps(w: World, dst: nat, known: bool, now: nat, stepMs: nat)
    requires Inv(w)
    ensures Inv(Tick(w, dst, known, now, stepMs))
  {
    IntakeKeeps(w, dst, known);
    var a := Intake(w, dst, known);
    FlushKeeps(a);
    var b := Flush(a);
    OpsKeeps(b);
    var c := Ops(b);
    ExecuteKeeps(c, now, stepMs);
    ExecuteKeeps(Load(c, now, stepMs), now, stepMs);
  }

  lemma {:induction false} RunKeeps(dst: nat, inputs: seq<Input>)
    ensures Inv(Run(START, dst, inputs))
  {
    if inputs != [] {
      RunKeeps(dst, inputs[..|inputs| - 1]);
      StepKeeps(Run(START, dst, inputs[..|inputs| - 1]), dst, inputs[|inputs| - 1]);
    }
  }

  // ---------------------------------------------------------------- the main results

  /** In every run: the queue holds at most four tasks and the running one first, `now` and `ended` are never both set, each
      ring shows the ten newest of its history, and every accepted task is accounted for. */
  lemma TasksAreConserved(dst: nat, inputs: seq<Input>)
    ensures var w := Run(START, dst, inputs);
      && |w.r.queue| <= QUEUE && !(w.r.now.Some? && w.r.ended.Some?)
      && (w.r.now.Some? ==> w.r.queue != [] && w.r.queue[0] == w.r.now.value.task)
      && w.r.completed == Newest(w.l.completed) && w.r.canceled == Newest(w.l.canceled) && w.r.rejected == Newest(w.l.rejected)
      && Conserved(w)
  {
    RunKeeps(dst, inputs);
  }

  /** Whatever keys are used, the keys of the accepted tasks are those in the queue or on record. */
  lemma KeysAreConserved(dst: nat, inputs: seq<Input>, k: Key)
    ensures var w := Run(START, dst, inputs); HasTaskKey(w.l.accepted, k) <==> HasTaskKey(w.r.queue, k) || Filed(w, k)
  {
    RunKeeps(dst, inputs);
    var w := Run(START, dst, inputs);
    KeyIn(w.l.accepted, k);
    KeyIn(w.r.queue, k);
    KeyIn(EndedOf(w.r), k);
    KeyIn(w.l.completed, k);
    KeyIn(w.l.canceled, k);
    KeyIn(w.l.lost, k);
    if HasTaskKey(w.l.lost, k) {
      var i :| 0 <= i < |w.l.lost| && w.l.lost[i].key == k;
      assert Filed(w, w.l.lost[i].key);
    }
  }

  lemma KeyIn(ts: seq<Task>, k: Key)
    ensures HasTaskKey(ts, k) <==> exists t :: t in multiset(ts) && t.key == k
  {
    if HasTaskKey(ts, k) {
      var i :| 0 <= i < |ts| && ts[i].key == k;
      assert ts[i] in multiset(ts);
    }
    if t :| t in multiset(ts) && t.key == k {
      assert t in ts;
    }
  }

  predicate DistinctKeys(ts: seq<Task>) {
    forall i, j | 0 <= i < j < |ts| :: ts[i].key != ts[j].key
  }

  /** With distinct keys nothing is lost: each accepted task is exactly once in the queue, ended, completed or canceled. */
  lemma DistinctKeysLoseNothing(dst: nat, inputs: seq<Input>)
    requires DistinctKeys(Run(START, dst, inputs).l.accepted)
    ensures var w := Run(START, dst, inputs);
      && w.l.lost == []
      && multiset(w.l.accepted) == multiset(w.r.queue) + multiset(EndedOf(w.r)) + multiset(w.l.completed) + multiset(w.l.canceled)
      && forall t | t in w.l.accepted :: multiset(w.l.accepted)[t] == 1
  {
    var w := Run(START, dst, inputs);
    RunKeeps(dst, inputs);
    if w.l.lost != [] {
      var t, k := w.l.lost[0], w.l.lost[0].key;
      assert Filed(w, k);
      var filed := EndedOf(w.r) + w.l.completed + w.l.canceled;
      HasConcat(EndedOf(w.r), w.l.completed, k);
      HasConcat(EndedOf(w.r) + w.l.completed, w.l.canceled, k);
      var i :| 0 <= i < |filed| && filed[i].key == k;
      assert multiset(w.l.accepted) == multiset(w.r.queue) + multiset(filed) + multiset(w.l.lost);
      TwiceInMultiset(w.l.accepted, multiset(w.r.queue), filed, w.l.lost, i, 0);
    }
    forall t | t in w.l.accepted ensures multiset(w.l.accepted)[t] == 1 { OnceEach(w.l.accepted, t); }
  }

  lemma {:induction false} OnceEach(ts: seq<Task>, t: Task)
    requires DistinctKeys(ts)
    ensures multiset(ts)[t] <= 1 && (t in ts ==> multiset(ts)[t] == 1)
  {
    if ts != [] {
      var front := ts[..|ts| - 1];
      OnceEach(front, t);
      assert ts == front + [ts[|ts| - 1]];
      if ts[|ts| - 1] == t { assert t !in front; }
    }
  }

  /** Two parts of a list with distinct keys share no key. */
  lemma TwiceInMultiset(all: seq<Task>, more: multiset<Task>, a: seq<Task>, b: seq<Task>, i: nat, j: nat)
    requires DistinctKeys(all) && multiset(all) == more + multiset(a) + multiset(b)
    requires i < |a| && j < |b|
    ensures a[i].key != b[j].key
  {
    assert a[i] in multiset(a) && b[j] in multiset(b);
    assert a[i] in multiset(all) && b[j] in multiset(all);
    if a[i] == b[j] {
      OnceEach(all, a[i]);
    } else {
      var p :| 0 <= p < |all| && all[p] == a[i];
      var q :| 0 <= q < |all| && all[q] == b[j];
    }
  }

  // ---------------------------------------------------------------- which commands are accepted, which tasks are lost

  /** In a whole tick a command is accepted exactly when it is for this robot, its header is new, the queue has room as the tick
      begins and its task is valid; it is then the one that is accepted. */
  lemma AcceptedExactly(w: World, dst: nat, known: bool, now: nat, stepMs: nat)
    requires w.r.pending.Some?
    ensures var (h, t), w' := w.r.pending.value, Tick(w, dst, known, now, stepMs);
      && (w'.l.accepted == w.l.accepted || w'.l.accepted == w.l.accepted + [t])
      && w'.r.pending.None? && w'.r.lastHeader == h
      && ((w'.l.accepted != w.l.accepted) <==>
        && h.dst == dst && h != w.r.lastHeader && |w.r.queue| < QUEUE
        && t.cell != 0 && known && (t.item != 0 || t.kind == MOVE) && UP <= t.kind <= MEASURE)
  {
    TickAccepts(w, dst, known, now, stepMs);
    assert w.l.accepted + [w.r.pending.value.1] != w.l.accepted;
  }

  /** Taking in is the only stage that accepts, so this decides a whole tick. */
  lemma TickAccepts(w: World, dst: nat, known: bool, now: nat, stepMs: nat)
    ensures Tick(w, dst, known, now, stepMs).l.accepted == Intake(w, dst, known).l.accepted
    ensures Tick(w, dst, known, now, stepMs).r.lastHeader == Intake(w, dst, known).r.lastHeader
    ensures Tick(w, dst, known, now, stepMs).r.pending == Intake(w, dst, known).r.pending
  {
    OpsAcceptNone(Flush(Intake(w, dst, known)));
  }

  lemma OpsAcceptNone(w: World)
    ensures Ops(w).l.accepted == w.l.accepted && Ops(w).r.lastHeader == w.r.lastHeader && Ops(w).r.pending == w.r.pending
  {
  }

  /** Every command of `inputs` carries this header. */
  predicate OnlyHeader(inputs: seq<Input>, h: Header) {
    forall i | 0 <= i < |inputs| && inputs[i].Submit? :: inputs[i].h == h
  }

  /** The header was the last one processed, and a command that waits carries it too. */
  predicate Seen(w: World, h: Header) {
    w.r.lastHeader == h && (w.r.pending.Some? ==> w.r.pending.value.0 == h)
  }

  /** A header is good for one command: repeated any number of times, with any task, ticks and operations in between, it lets
      nothing else in. */
  lemma {:induction false} RepeatedHeaderIsRejected(w: World, dst: nat, inputs: seq<Input>, h: Header)
    requires Seen(w, h) && OnlyHeader(inputs, h)
    ensures Run(w, dst, inputs).l.accepted == w.l.accepted && Seen(Run(w, dst, inputs), h)
  {
    if inputs != [] {
      var front, last := inputs[..|inputs| - 1], inputs[|inputs| - 1];
      RepeatedHeaderIsRejected(w, dst, front, h);
      var now := Run(w, dst, front);
      match last
      case Submit(g, t) => assert inputs[|inputs| - 1].h == h;
      case Request(_) =>
      case Tock(known, at, stepMs) => TickAccepts(now, dst, known, at, stepMs);
    }
  }

  /** When the running task ends, tasks are lost exactly when another queued task has its key. */
  lemma LostExactly(w: World, canceled: bool)
    requires Inv(w) && w.r.now.Some?
    ensures EndRunning(w, w.r.now.value.task, canceled).l.lost == w.l.lost
       <==> forall j | 1 <= j < |w.r.queue| :: w.r.queue[j].key != w.r.now.value.task.key
  {
    var t := w.r.now.value.task;
    var hits := Hits(w.r.queue, ByKey(t.key));
    HitsHit(w.r.queue[1..], ByKey(t.key));
    assert Rest(hits) == Hits(w.r.queue[1..], ByKey(t.key));
    NoHits(w.r.queue[1..], ByKey(t.key));
    if Rest(hits) != [] { assert |w.l.lost + Rest(hits)| > |w.l.lost|; } else { assert w.l.lost + [] == w.l.lost; }
    if forall j | 1 <= j < |w.r.queue| :: w.r.queue[j].key != t.key {
      assert forall j | 0 <= j < |w.r.queue[1..]| :: !Hit(ByKey(t.key), w.r.queue[1..][j]);
    } else {
      var j :| 1 <= j < |w.r.queue| && w.r.queue[j].key == t.key;
      assert Hit(ByKey(t.key), w.r.queue[1..][j - 1]);
    }
  }

  lemma {:induction false} NoHits(ts: seq<Task>, sel: Sel)
    ensures Hits(ts, sel) == [] <==> forall j | 0 <= j < |ts| :: !Hit(sel, ts[j])
  {
    if ts != [] {
      NoHits(ts[1..], sel);
      assert forall j | 0 < j < |ts| :: ts[j] == ts[1..][j - 1];
    }
  }

  /** Two accepted commands with one key: when the first completes, the second is in no ring and not in the queue. */
  lemma ADuplicateIsLost(t: Task, u: Task, h: Header, g: Header)
    requires t == Task(Key(1, 1), MOVE, 5, 0, 0) && u == Task(Key(1, 1), MOVE, 6, 0, 0)
    requires h == Header(1, 1, 1, 1, 9, 1) && g == Header(1, 2, 1, 1, 9, 2)
    ensures var w1 := Step(START, 9, Submit(h, t));
      var w2 := Step(w1, 9, Tock(true, 0, 700));
      var w3 := Step(w2, 9, Submit(g, u));
      var w4 := Step(w3, 9, Tock(true, 1, 700));
      var w5 := Step(w4, 9, Request(Complete(Key(1, 1))));
      var w := Step(w5, 9, Tock(true, 2, 700));
      && w.l.accepted == [t, u] && w.r.queue == [] && w.r.ended == Some(Ended(t, false))
      && w.l.completed == [] && w.l.canceled == [] && w.l.lost == [u]
  {
    var w1 := Step(START, 9, Submit(h, t));
    var w2 := Step(w1, 9, Tock(true, 0, 700));
    assert w2.r.queue == [t] && w2.r.now == Some(Running(t, 0, 0, 700)) && w2.r.ended == None && w2.l.lost == [] && w2.l.accepted == [t];
    assert w2.r.pending == None && w2.r.op == None && w2.r.lastHeader == h && w2.l.completed == [] && w2.l.canceled == [];
    ExampleEnd(w2, t, u, h, g);
  }

  lemma ExampleEnd(w2: World, t: Task, u: Task, h: Header, g: Header)
    requires t == Task(Key(1, 1), MOVE, 5, 0, 0) && u == Task(Key(1, 1), MOVE, 6, 0, 0)
    requires h == Header(1, 1, 1, 1, 9, 1) && g == Header(1, 2, 1, 1, 9, 2)
    requires w2.r.queue == [t] && w2.r.now == Some(Running(t, 0, 0, 700)) && w2.r.ended == None && w2.l.lost == [] && w2.l.accepted == [t]
    requires w2.r.pending == None && w2.r.op == None && w2.r.lastHeader == h && w2.l.completed == [] && w2.l.canceled == []
    ensures var w3 := Step(w2, 9, Submit(g, u));
      var w4 := Step(w3, 9, Tock(true, 1, 700));
      var w5 := Step(w4, 9, Request(Complete(Key(1, 1))));
      var w := Step(w5, 9, Tock(true, 2, 700));
      && w.l.accepted == [t, u] && w.r.queue == [] && w.r.ended == Some(Ended(t, false))
      && w.l.completed == [] && w.l.canceled == [] && w.l.lost == [u]
  {
    var w3 := Step(w2, 9, Submit(g, u));
    var w4 := Step(w3, 9, Tock(true, 1, 700));
    assert w4.r.queue == [t, u] && w4.r.now == w2.r.now && w4.r.ended == None && w4.r.pending == None && w4.r.op == None;
    assert w4.l.accepted == [t, u] && w4.l.lost == [] && w4.l.completed == [] && w4.l.canceled == [];
    var w5 := Step(w4, 9, Request(Complete(Key(1, 1))));
    var k := ByKey(Key(1, 1));
    assert Hits([u], k) == [u] && Kept([u], k) == [];
    assert [t, u][1..] == [u];
    assert Hits([t, u], k) == [t, u] && Kept([t, u], k) == [];
    assert Ops(w5).r.queue == [] && Ops(w5).l.lost == [u];
  }
}
