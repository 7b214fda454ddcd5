/** Robots that take a task only when `check` finds nobody in the way stay apart: `apps/gr-console/src/area.rs`. */
module AreaRuns {
  import opened Wrappers
  import opened Area

  datatype Step =
    | Issue(me: nat, x: real, pairDrop: Option<real>)
    | Take(me: nat, i: nat)
    | Finish(me: nat, i: nat)
    | Refuse(me: nat, i: nat)
    | Cancel(me: nat, i: nat)
    | Move(me: nat, to: Option<real>)
    | EndPair(me: nat)

  /** The robot after its step; a finished robot stands at the target of the task. */
  function After(r: Robot, s: Step): Robot {
    match s
    case Issue(_, x, pair) => r.(tasks := r.tasks + [Task(x, Submitted)], pairDrop := if pair.Some? then pair else r.pairDrop)
    case Take(_, i) => if i < |r.tasks| then r.(tasks := r.tasks[i := r.tasks[i].(state := Taken)]) else r
    case Finish(_, i) => if i < |r.tasks| then r.(tasks := Without(r.tasks, i), current := Some(r.tasks[i].x)) else r
    case Refuse(_, i) => if i < |r.tasks| then r.(tasks := Without(r.tasks, i)) else r
    case Cancel(_, i) => if i < |r.tasks| then r.(tasks := Without(r.tasks, i)) else r
    case Move(_, to) => r.(current := to)
    case EndPair(_) => r.(pairDrop := None)
  }

  /** A task is issued only when nobody blocks it and the issue fits; only a task that was not taken is refused, and any task
      is cancelled only when that fits; a robot that is not committed stays where its reservation is. */
  predicate Allowed(rs: seq<Robot>, sep: real, s: Step) {
    && s.me < |rs|
    && match s
       case Issue(me, x, pair) => Check(rs, true, sep, me, x, pair).None? && IssueFits(rs, sep, me, x, pair)
       case Take(me, i) => i < |rs[me].tasks|
       case Finish(me, i) => i < |rs[me].tasks|
       case Refuse(me, i) => i < |rs[me].tasks| && rs[me].tasks[i].state == Submitted
       case Cancel(me, i) => i < |rs[me].tasks| && CancelFits(rs[me], i)
       case Move(me, to) => Committed(rs[me]) || to.None? || Holds(rs[me], to.value)
       case EndPair(me) => true
  }

  /** The next task starts from a known place: a target under way, else the position; or there is no pair to hold. */
  predicate Located(r: Robot) {
    r.tasks != [] || r.current.Some? || r.pairDrop.None?
  }

  /** A robot of unknown position that holds a pair takes a task that keeps the pair only when nobody is too near the way
      between the drop of the pair and the target. */
  predicate IssueFits(rs: seq<Robot>, sep: real, me: nat, x: real, pair: Option<real>)
    requires me < |rs|
  {
    Located(rs[me]) || pair.Some? ||
    forall k | 0 <= k < |rs| && k != me :: FarFrom(rs[k], Span(rs[me].pairDrop.value, x), sep + rs[me].margin)
  }

  /** What robot `r` holds is at least `least` and its own margin away from the interval. */
  predicate FarFrom(r: Robot, i: Interval, least: real) {
    AreaOf(r).Some? ==> Gap(i, AreaOf(r).value) >= least + r.margin
  }

  /** A task may be dropped when another one is still taken, or the position is unknown, or it lies in what the robot holds. */
  predicate CancelFits(r: Robot, i: nat)
    requires i < |r.tasks|
  {
    Committed(After(r, Cancel(0, i))) || r.current.None? || Holds(r, r.current.value)
  }

  predicate Apart(a: Robot, b: Robot, sep: real) {
    AreaOf(a).Some? && AreaOf(b).Some? ==> Gap(AreaOf(a).value, AreaOf(b).value) >= sep + a.margin + b.margin
  }

  predicate Separated(rs: seq<Robot>, sep: real) {
    forall j, k | 0 <= j < |rs| && 0 <= k < |rs| && j != k :: Apart(rs[j], rs[k], sep)
  }

  // ---------------------------------------------------------------- steps that only give room back

  /** The new reservation lies inside the old one. */
  predicate Shrinks(r: Robot, r': Robot) {
    && r'.margin == r.margin
    && (AreaOf(r').Some? ==> AreaOf(r).Some? && Inside(AreaOf(r').value, AreaOf(r).value))
  }

  lemma HoldsTarget(r: Robot, k: nat)
    requires k < |r.tasks|
    ensures AreaOf(r).Some? && Contains(AreaOf(r).value, r.tasks[k].x)
  {
    var front := if Committed(r) then [] else Opt(r.current);
    assert Points(r)[|front| + k] == r.tasks[k].x;
    HullHas(Points(r), |front| + k);
  }

  lemma HoldsPair(r: Robot)
    requires r.pairDrop.Some?
    ensures AreaOf(r).Some? && Contains(AreaOf(r).value, r.pairDrop.value)
  {
    assert Points(r)[|Points(r)| - 1] == r.pairDrop.value;
    HullHas(Points(r), |Points(r)| - 1);
  }

  lemma HoldsCurrent(r: Robot)
    requires !Committed(r) && r.current.Some?
    ensures AreaOf(r).Some? && Contains(AreaOf(r).value, r.current.value)
  {
    assert Points(r)[0] == r.current.value;
    HullHas(Points(r), 0);
  }

  predicate Aims(tasks: seq<Task>, x: real) {
    exists j :: 0 <= j < |tasks| && tasks[j].x == x
  }

  /** The targets of the first list are targets of the second. */
  predicate TargetsWithin(fewer: seq<Task>, tasks: seq<Task>) {
    forall k | 0 <= k < |fewer| :: Aims(tasks, fewer[k].x)
  }

  predicate Holds(r: Robot, x: real) {
    AreaOf(r).Some? && Contains(AreaOf(r).value, x)
  }

  /** Nothing is held that was not held before. */
  predicate HoldsLess(r: Robot, r': Robot) {
    && TargetsWithin(r'.tasks, r.tasks)
    && (r'.pairDrop.Some? ==> r'.pairDrop == r.pairDrop)
    && (!Committed(r') && r'.current.Some? ==> Holds(r, r'.current.value))
  }

  lemma PointHeld(r: Robot, r': Robot, k: nat)
    requires HoldsLess(r, r') && k < |Points(r')|
    ensures Holds(r, Points(r')[k])
  {
    var front := if Committed(r') then [] else Opt(r'.current);
    if |front| <= k < |front| + |r'.tasks| {
      assert Aims(r.tasks, r'.tasks[k - |front|].x);
      var j: nat :| j < |r.tasks| && r.tasks[j].x == r'.tasks[k - |front|].x;
      HoldsTarget(r, j);
    } else if k >= |front| {
      HoldsPair(r);
    }
  }

  lemma HoldsLessShrinks(r: Robot, r': Robot)
    requires HoldsLess(r, r') && r'.margin == r.margin
    ensures Shrinks(r, r')
  {
    if Points(r') != [] {
      PointHeld(r, r', 0);
      forall k: nat | k < |Points(r')| ensures Contains(AreaOf(r).value, Points(r')[k]) { PointHeld(r, r', k); }
      HullShrinks(Points(r'), AreaOf(r).value);
    }
  }

  lemma SameTargets(tasks: seq<Task>)
    ensures TargetsWithin(tasks, tasks)
  {
    forall k | 0 <= k < |tasks| ensures Aims(tasks, tasks[k].x) {}
  }

  lemma TakeShrinks(r: Robot, i: nat)
    requires i < |r.tasks|
    ensures Shrinks(r, After(r, Take(0, i)))
  {
    var r' := After(r, Take(0, i));
    assert r'.tasks[i].state == Taken;
    forall k | 0 <= k < |r'.tasks| ensures Aims(r.tasks, r'.tasks[k].x) { assert r.tasks[k].x == r'.tasks[k].x; }
    HoldsLessShrinks(r, r');
  }

  lemma OthersRemain(r: Robot, i: nat)
    requires i < |r.tasks|
    ensures TargetsWithin(Without(r.tasks, i), r.tasks)
  {
    forall k | 0 <= k < |Without(r.tasks, i)| ensures Aims(r.tasks, Without(r.tasks, i)[k].x) {
      assert r.tasks[if k < i then k else k + 1].x == Without(r.tasks, i)[k].x;
    }
  }

  lemma FinishShrinks(r: Robot, i: nat)
    requires i < |r.tasks|
    ensures Shrinks(r, After(r, Finish(0, i)))
  {
    OthersRemain(r, i);
    HoldsTarget(r, i);
    HoldsLessShrinks(r, After(r, Finish(0, i)));
  }

  lemma RefuseShrinks(r: Robot, i: nat)
    requires i < |r.tasks| && r.tasks[i].state == Submitted
    ensures CancelFits(r, i) && Shrinks(r, After(r, Refuse(0, i)))
  {
    var r' := After(r, Refuse(0, i));
    if Committed(r) {
      var k :| 0 <= k < |r.tasks| && r.tasks[k].state == Taken;
      assert r'.tasks[if k < i then k else k - 1].state == Taken;
    } else if r.current.Some? {
      HoldsCurrent(r);
    }
    CancelShrinks(r, i);
  }

  /** Dropping a task gives room back exactly when it fits. */
  lemma CancelShrinks(r: Robot, i: nat)
    requires i < |r.tasks|
    ensures Shrinks(r, After(r, Cancel(0, i))) <==> CancelFits(r, i)
  {
    var r' := After(r, Cancel(0, i));
    if CancelFits(r, i) {
      OthersRemain(r, i);
      HoldsLessShrinks(r, r');
    } else {
      HoldsCurrent(r');
    }
  }

  lemma MoveShrinks(r: Robot, to: Option<real>)
    requires Committed(r) || to.None? || Holds(r, to.value)
    ensures Shrinks(r, After(r, Move(0, to)))
  {
    SameTargets(r.tasks);
    HoldsLessShrinks(r, After(r, Move(0, to)));
  }

  lemma EndPairShrinks(r: Robot)
    ensures Shrinks(r, After(r, EndPair(0)))
  {
    SameTargets(r.tasks);
    if !Committed(r) && r.current.Some? { HoldsCurrent(r); }
    HoldsLessShrinks(r, After(r, EndPair(0)));
  }

  lemma ReplaceKeeps(rs: seq<Robot>, sep: real, me: nat, r': Robot)
    requires Separated(rs, sep) && me < |rs| && forall k | 0 <= k < |rs| && k != me :: Apart(r', rs[k], sep)
    ensures Separated(rs[me := r'], sep)
  {
    var rs' := rs[me := r'];
    forall j, k | 0 <= j < |rs| && 0 <= k < |rs| && j != k ensures Apart(rs'[j], rs'[k], sep) {
      assert Apart(rs[j], rs[k], sep);
      if k == me { Mirror(r', rs[j], sep); }
    }
  }

  lemma Mirror(a: Robot, b: Robot, sep: real)
    requires Apart(a, b, sep)
    ensures Apart(b, a, sep)
  {
  }

  lemma ShrinkKeeps(rs: seq<Robot>, sep: real, me: nat, r': Robot)
    requires Separated(rs, sep) && me < |rs| && Shrinks(rs[me], r')
    ensures Separated(rs[me := r'], sep)
  {
    forall k | 0 <= k < |rs| && k != me ensures Apart(r', rs[k], sep) {
      assert Apart(rs[me], rs[k], sep);
      if AreaOf(r').Some? && AreaOf(rs[k]).Some? { GapOfInside(AreaOf(r').value, AreaOf(rs[me]).value, AreaOf(rs[k]).value); }
    }
    ReplaceKeeps(rs, sep, me, r');
  }

  // ---------------------------------------------------------------- taking room

  lemma HullOfOne(x: real)
    ensures Hull([x]) == Some(Point(x))
  {
  }

  lemma HullOfTwo(x: real, y: real)
    ensures Hull([x, y]) == Some(Span(x, y))
  {
    assert [x, y][..1] == [x];
    HullOfOne(x);
  }

  /** The area the check looked at. */
  function Mine(r: Robot, x: real, pair: Option<real>): Interval {
    TaskArea(LastTarget(r), r.current, x, pair)
  }

  /** The old reservation, if any, joined with the area of the task. */
  function Joined(r: Robot, x: real, pair: Option<real>): Interval {
    var mine := Mine(r, x, pair);
    if AreaOf(r).None? then mine else Interval(Min(AreaOf(r).value.lo, mine.lo), Max(AreaOf(r).value.hi, mine.hi))
  }

  lemma HeldIsJoined(r: Robot, x: real, pair: Option<real>, y: real)
    requires Holds(r, y) || Contains(Mine(r, x, pair), y)
    ensures Contains(Joined(r, x, pair), y)
  {
  }

  lemma IssuedPoint(r: Robot, x: real, pair: Option<real>, k: nat)
    requires k < |Points(After(r, Issue(0, x, pair)))|
    ensures Contains(Joined(r, x, pair), Points(After(r, Issue(0, x, pair)))[k])
  {
    var r' := After(r, Issue(0, x, pair));
    var y := Points(r')[k];
    SameCommitment(r, x, pair);
    var front := if Committed(r) then [] else Opt(r.current);
    assert r'.tasks[..|r.tasks|] == r.tasks;
    if k < |front| {
      HoldsCurrent(r);
    } else if k < |front| + |r.tasks| {
      HoldsTarget(r, k - |front|);
    } else if k > |front| + |r.tasks| && pair.None? {
      HoldsPair(r);
    }
    HeldIsJoined(r, x, pair, y);
  }

  /** The new reservation lies in the old one joined with the area of the task, and both share a point. */
  lemma IssueJoins(r: Robot, x: real, pair: Option<real>)
    requires Located(r)
    ensures AreaOf(After(r, Issue(0, x, pair))).Some? && Inside(AreaOf(After(r, Issue(0, x, pair))).value, Joined(r, x, pair))
    ensures AreaOf(r).Some? ==> SharePoint(AreaOf(r).value, Mine(r, x, pair))
  {
    var r' := After(r, Issue(0, x, pair));
    HoldsTarget(r', |r.tasks|);
    forall k: nat | k < |Points(r')| ensures Contains(Joined(r, x, pair), Points(r')[k]) { IssuedPoint(r, x, pair, k); }
    HullShrinks(Points(r'), Joined(r, x, pair));
    if AreaOf(r).Some? { SharesStart(r, x, pair); }
  }

  predicate SharePoint(a: Interval, b: Interval) {
    a.lo <= b.hi && b.lo <= a.hi
  }

  lemma SameCommitment(r: Robot, x: real, pair: Option<real>)
    ensures Committed(After(r, Issue(0, x, pair))) <==> Committed(r)
  {
    var r' := After(r, Issue(0, x, pair));
    if Committed(r) {
      var k :| 0 <= k < |r.tasks| && r.tasks[k].state == Taken;
      assert r'.tasks[k].state == Taken;
    }
  }

  lemma SharesStart(r: Robot, x: real, pair: Option<real>)
    requires Located(r) && AreaOf(r).Some?
    ensures SharePoint(AreaOf(r).value, Mine(r, x, pair))
  {
    if r.tasks != [] {
      HoldsTarget(r, |r.tasks| - 1);
    } else if r.current.Some? {
      HoldsCurrent(r);
    }
  }

  /** Nobody blocks the task: every other reservation is far enough from its area. */
  lemma Unblocked(rs: seq<Robot>, sep: real, me: nat, x: real, pair: Option<real>, k: nat)
    requires me < |rs| && k < |rs| && k != me && AreaOf(rs[k]).Some? && Check(rs, true, sep, me, x, pair).None?
    ensures Gap(Mine(rs[me], x, pair), AreaOf(rs[k]).value) >= sep + rs[me].margin + rs[k].margin
  {
    var o := Reservation(k, AreaOf(rs[k]).value, rs[k].margin);
    assert o in Others(rs, me);
    assert Gap(Mine(rs[me], x, pair), o.area) >= (sep + rs[me].margin) + o.margin;
  }

  lemma IssueKeeps(rs: seq<Robot>, sep: real, me: nat, x: real, pair: Option<real>)
    requires Separated(rs, sep) && Allowed(rs, sep, Issue(me, x, pair))
    ensures Separated(rs[me := After(rs[me], Issue(me, x, pair))], sep)
  {
    var r' := After(rs[me], Issue(me, x, pair));
    forall k | 0 <= k < |rs| && k != me ensures Apart(r', rs[k], sep) {
      if AreaOf(rs[k]).Some? {
        if Located(rs[me]) { IssuedApart(rs, sep, me, x, pair, k); } else { UnlocatedApart(rs, sep, me, x, pair, k); }
      }
    }
    ReplaceKeeps(rs, sep, me, r');
  }

  /** Without a known place the new reservation spans the target and the drop of the pair, the new one or the old. */
  lemma UnlocatedArea(r: Robot, x: real, pair: Option<real>)
    requires !Located(r)
    ensures AreaOf(After(r, Issue(0, x, pair))) == Some(Span(x, if pair.Some? then pair.value else r.pairDrop.value))
    ensures pair.Some? ==> Mine(r, x, pair) == Span(x, pair.value)
  {
    var d := if pair.Some? then pair.value else r.pairDrop.value;
    assert Points(After(r, Issue(0, x, pair))) == [x, d];
    HullOfTwo(x, d);
  }

  lemma UnlocatedApart(rs: seq<Robot>, sep: real, me: nat, x: real, pair: Option<real>, k: nat)
    requires me < |rs| && !Located(rs[me]) && Check(rs, true, sep, me, x, pair).None?
    requires k < |rs| && k != me && AreaOf(rs[k]).Some? && (pair.Some? || IssueFits(rs, sep, me, x, pair))
    ensures Apart(After(rs[me], Issue(me, x, pair)), rs[k], sep)
  {
    assert After(rs[me], Issue(me, x, pair)) == After(rs[me], Issue(0, x, pair));
    UnlocatedArea(rs[me], x, pair);
    if pair.Some? { Unblocked(rs, sep, me, x, pair, k); }
  }

  lemma UnfitIssue(rs: seq<Robot>, sep: real, me: nat, x: real, pair: Option<real>, k: nat)
    requires me < |rs| && k < |rs| && k != me && !Located(rs[me]) && pair.None?
    requires !FarFrom(rs[k], Span(rs[me].pairDrop.value, x), sep + rs[me].margin)
    ensures !Separated(rs[me := After(rs[me], Issue(me, x, pair))], sep)
  {
    var r' := After(rs[me], Issue(me, x, pair));
    assert r' == After(rs[me], Issue(0, x, pair));
    UnlocatedArea(rs[me], x, pair);
    var rs' := rs[me := r'];
    assert !Apart(rs'[me], rs'[k], sep);
  }

  /** A task that nobody blocks keeps the reservations apart exactly when its issue fits. */
  lemma IssueExactly(rs: seq<Robot>, sep: real, me: nat, x: real, pair: Option<real>)
    requires Separated(rs, sep) && me < |rs| && Check(rs, true, sep, me, x, pair).None?
    ensures Separated(rs[me := After(rs[me], Issue(me, x, pair))], sep) <==> IssueFits(rs, sep, me, x, pair)
  {
    if IssueFits(rs, sep, me, x, pair) {
      IssueKeeps(rs, sep, me, x, pair);
    } else {
      var k: nat :| k < |rs| && k != me && !FarFrom(rs[k], Span(rs[me].pairDrop.value, x), sep + rs[me].margin);
      UnfitIssue(rs, sep, me, x, pair, k);
    }
  }

  /** Delivering the pair from an unknown place always fits: the drop was held before. */
  lemma DropFits(rs: seq<Robot>, sep: real, me: nat)
    requires Separated(rs, sep) && me < |rs| && !Located(rs[me])
    ensures Allowed(rs, sep, Issue(me, rs[me].pairDrop.value, None))
  {
    var r, d := rs[me], rs[me].pairDrop.value;
    assert Points(r) == [d];
    HullOfOne(d);
    forall k | 0 <= k < |rs| && k != me && AreaOf(rs[k]).Some?
      ensures Gap(Point(d), AreaOf(rs[k]).value) >= sep + r.margin + rs[k].margin
    {
      assert Apart(r, rs[k], sep);
    }
    assert Mine(r, d, None) == Point(d) == Span(d, d);
    forall o | o in Others(rs, me) ensures Gap(Point(d), o.area) >= (sep + r.margin) + o.margin {
      assert AreaOf(rs[o.robot]) == Some(o.area);
    }
  }

  lemma IssuedApart(rs: seq<Robot>, sep: real, me: nat, x: real, pair: Option<real>, k: nat)
    requires Separated(rs, sep) && Allowed(rs, sep, Issue(me, x, pair)) && Located(rs[me])
    requires k < |rs| && k != me && AreaOf(rs[k]).Some?
    ensures Apart(After(rs[me], Issue(me, x, pair)), rs[k], sep)
  {
    var r, r', mine, o := rs[me], After(rs[me], Issue(me, x, pair)), Mine(rs[me], x, pair), AreaOf(rs[k]).value;
    assert r' == After(r, Issue(0, x, pair));
    IssueJoins(r, x, pair);
    Unblocked(rs, sep, me, x, pair, k);
    assert Apart(r, rs[k], sep);
    if AreaOf(r).Some? {
      GapOfJoined(AreaOf(r).value, mine, AreaOf(r').value, o, Max(AreaOf(r).value.lo, mine.lo));
    } else {
      GapOfInside(AreaOf(r').value, mine, o);
    }
  }

  // ---------------------------------------------------------------- whole runs

  lemma StepKeeps(rs: seq<Robot>, sep: real, s: Step)
    requires Separated(rs, sep) && Allowed(rs, sep, s)
    ensures Separated(rs[s.me := After(rs[s.me], s)], sep)
  {
    var r := rs[s.me];
    match s
    case Issue(me, x, pair) => IssueKeeps(rs, sep, me, x, pair);
    case Take(me, i) => TakeShrinks(r, i); ShrinkKeeps(rs, sep, me, After(r, s));
    case Finish(me, i) => FinishShrinks(r, i); ShrinkKeeps(rs, sep, me, After(r, s));
    case Refuse(me, i) => RefuseShrinks(r, i); ShrinkKeeps(rs, sep, me, After(r, s));
    case Cancel(me, i) => CancelShrinks(r, i); ShrinkKeeps(rs, sep, me, After(r, s));
    case Move(me, to) => MoveShrinks(r, to); ShrinkKeeps(rs, sep, me, After(r, s));
    case EndPair(me) => EndPairShrinks(r); ShrinkKeeps(rs, sep, me, After(r, s));
  }

  /** The run of allowed steps, or `None` when one of them is not. */
  function Run(rs: seq<Robot>, sep: real, steps: seq<Step>): Option<seq<Robot>> {
    if steps == [] then Some(rs)
    else
      match Run(rs, sep, steps[..|steps| - 1])
      case None => None
      case Some(now) =>
        var s := steps[|steps| - 1];
        if Allowed(now, sep, s) then Some(now[s.me := After(now[s.me], s)]) else None
  }

  /** Robots whose reservations start apart stay at least the separation and both margins apart through every run. */
  lemma {:induction false} ReservationsStayApart(rs: seq<Robot>, sep: real, steps: seq<Step>, now: seq<Robot>)
    requires Separated(rs, sep) && Run(rs, sep, steps) == Some(now)
    ensures Separated(now, sep)
  {
    if steps != [] {
      var before := Run(rs, sep, steps[..|steps| - 1]).value;
      ReservationsStayApart(rs, sep, steps[..|steps| - 1], before);
      StepKeeps(before, sep, steps[|steps| - 1]);
    }
  }

  /** In such a run, whatever points two robots hold are at least that far from each other. */
  lemma HeldPointsStayApart(rs: seq<Robot>, sep: real, steps: seq<Step>, now: seq<Robot>, j: nat, k: nat, p: nat, q: nat)
    requires Separated(rs, sep) && Run(rs, sep, steps) == Some(now)
    requires j < |now| && k < |now| && j != k && p < |Points(now[j])| && q < |Points(now[k])|
    ensures Distance(Points(now[j])[p], Points(now[k])[q]) >= sep + now[j].margin + now[k].margin
  {
    ReservationsStayApart(rs, sep, steps, now);
    assert Apart(now[j], now[k], sep);
    HullHas(Points(now[j]), p);
    HullHas(Points(now[k]), q);
    GapIsDistance(AreaOf(now[j]).value, AreaOf(now[k]).value);
  }

  // ---------------------------------------------------------------- where the rule ends

  /** Somebody who is far enough from all the robot holds, but not from where it stands. */
  function Neighbour(r: Robot, sep: real): Robot
    requires r.current.Some? && AreaOf(r).Some?
  {
    var i, c := AreaOf(r).value, r.current.value;
    var y := if c > i.hi then Max(i.hi + sep + r.margin, c) else Min(i.lo - sep - r.margin, c);
    Robot(Some(y), [], None, 0.0)
  }

  lemma NeighbourTooNear(r: Robot, i: nat, sep: real)
    requires sep > 0.0 && r.margin >= 0.0 && i < |r.tasks| && !CancelFits(r, i)
    ensures AreaOf(r).Some? && Apart(r, Neighbour(r, sep), sep) && !Apart(After(r, Cancel(0, i)), Neighbour(r, sep), sep)
  {
    var r' := After(r, Cancel(0, i));
    HoldsTarget(r, i);
    HoldsCurrent(r');
    var b := Neighbour(r, sep);
    assert Points(b) == [b.current.value];
    HullOfOne(b.current.value);
    GapToPoint(AreaOf(r').value, r.current.value, b.current.value);
  }

  lemma GapToPoint(a: Interval, x: real, y: real)
    requires Contains(a, x)
    ensures Gap(a, Point(y)) <= Distance(x, y)
  {
  }

  /** Whatever separated robots `r` is among, they stay separated when it becomes `r'`. */
  ghost predicate SafeAmongAll(r: Robot, r': Robot, sep: real) {
    forall rs: seq<Robot>, me: nat | me < |rs| && rs[me] == r && Separated(rs, sep) :: Separated(rs[me := r'], sep)
  }

  lemma UnsafeWitness(r: Robot, r': Robot, b: Robot, sep: real)
    requires Apart(r, b, sep) && !Apart(r', b, sep)
    ensures !SafeAmongAll(r, r', sep)
  {
    PairApart(r, b, sep);
    PairApart(r', b, sep);
    assert [r, b][0 := r'] == [r', b] && [r, b][0] == r;
  }

  /** Dropping a task, taken or not, keeps every set of separated reservations separated exactly when it fits. */
  lemma CancelExactly(r: Robot, i: nat, sep: real)
    requires sep > 0.0 && r.margin >= 0.0 && i < |r.tasks|
    ensures CancelFits(r, i) <==> SafeAmongAll(r, After(r, Cancel(0, i)), sep)
  {
    var r' := After(r, Cancel(0, i));
    if CancelFits(r, i) {
      CancelShrinks(r, i);
      forall rs: seq<Robot>, me: nat | me < |rs| && rs[me] == r && Separated(rs, sep) ensures Separated(rs[me := r'], sep) {
        ShrinkKeeps(rs, sep, me, r');
      }
    } else {
      HoldsTarget(r, i);
      NeighbourTooNear(r, i, sep);
      UnsafeWitness(r, r', Neighbour(r, sep), sep);
    }
  }

  /** A run after which a taken task cannot be dropped: the robot stands where it gave up its room, and another robot was
      let near there. */
  lemma CancelBreaks()
    ensures var a, b := Robot(Some(0.0), [], None, 0.0), Robot(Some(200.0), [], None, 0.0);
      var now := Run([a, b], 50.0, [Issue(0, -100.0, None), Take(0, 0), Issue(1, -40.0, None)]);
      && Separated([a, b], 50.0) && now.Some? && |now.value| == 2 && |now.value[0].tasks| == 1 && !CancelFits(now.value[0], 0)
      && !Separated(now.value[0 := After(now.value[0], Cancel(0, 0))], 50.0)
  {
    var a, b := Robot(Some(0.0), [], None, 0.0), Robot(Some(200.0), [], None, 0.0);
    var a2, b1 := a.(tasks := [Task(-100.0, Taken)]), b.(tasks := [Task(-40.0, Submitted)]);
    ExampleRun(a, b, a.(tasks := [Task(-100.0, Submitted)]), a2, b1);
    ExampleCancelled(a, b, a2, b1);
  }

  lemma ExampleCancelled(a: Robot, b: Robot, a2: Robot, b1: Robot)
    requires a == Robot(Some(0.0), [], None, 0.0) && b == Robot(Some(200.0), [], None, 0.0)
    requires a2 == a.(tasks := [Task(-100.0, Taken)]) && b1 == b.(tasks := [Task(-40.0, Submitted)])
    ensures Separated([a, b], 50.0) && !CancelFits(a2, 0) && !Separated([a2, b1][0 := After(a2, Cancel(0, 0))], 50.0)
  {
    ExampleAreas(a, b, a2, b1);
    PairApart(a, b, 50.0);
    assert After(a2, Cancel(0, 0)) == a && [a2, b1][0 := a] == [a, b1];
    PairApart(a, b1, 50.0);
  }

  lemma ExampleRun(a: Robot, b: Robot, a1: Robot, a2: Robot, b1: Robot)
    requires a == Robot(Some(0.0), [], None, 0.0) && b == Robot(Some(200.0), [], None, 0.0)
    requires a1 == a.(tasks := [Task(-100.0, Submitted)]) && a2 == a.(tasks := [Task(-100.0, Taken)]) && b1 == b.(tasks := [Task(-40.0, Submitted)])
    ensures Run([a, b], 50.0, [Issue(0, -100.0, None), Take(0, 0), Issue(1, -40.0, None)]) == Some([a2, b1])
  {
    var s1, s2, s3 := Issue(0, -100.0, None), Take(0, 0), Issue(1, -40.0, None);
    ExampleStart(a, b, a1);
    RunOne([a, b], 50.0, [], s1, [a, b]);
    assert [] + [s1] == [s1] && [a, b][0 := a1] == [a1, b];
    RunOne([a, b], 50.0, [s1], s2, [a1, b]);
    assert [s1] + [s2] == [s1, s2] && After(a1, s2) == a2 && [a1, b][0 := a2] == [a2, b];
    ExampleEnd(a, b, a2, b1);
    RunOne([a, b], 50.0, [s1, s2], s3, [a2, b]);
    assert [s1, s2] + [s3] == [s1, s2, s3] && [a2, b][1 := b1] == [a2, b1];
  }

  lemma ExampleStart(a: Robot, b: Robot, a1: Robot)
    requires a == Robot(Some(0.0), [], None, 0.0) && b == Robot(Some(200.0), [], None, 0.0) && a1 == a.(tasks := [Task(-100.0, Submitted)])
    ensures Allowed([a, b], 50.0, Issue(0, -100.0, None)) && After(a, Issue(0, -100.0, None)) == a1
  {
    ExampleAreas(a, b, a.(tasks := [Task(-100.0, Taken)]), b.(tasks := [Task(-40.0, Submitted)]));
    PairAllowed([a, b], 50.0, 0, 1, -100.0, Interval(-100.0, 0.0), Point(200.0));
  }

  lemma ExampleEnd(a: Robot, b: Robot, a2: Robot, b1: Robot)
    requires a == Robot(Some(0.0), [], None, 0.0) && b == Robot(Some(200.0), [], None, 0.0)
    requires a2 == a.(tasks := [Task(-100.0, Taken)]) && b1 == b.(tasks := [Task(-40.0, Submitted)])
    ensures Allowed([a2, b], 50.0, Issue(1, -40.0, None)) && After(b, Issue(1, -40.0, None)) == b1
  {
    ExampleAreas(a, b, a2, b1);
    PairAllowed([a2, b], 50.0, 1, 0, -40.0, Interval(-40.0, 200.0), Point(-100.0));
  }

  lemma PairAllowed(rs: seq<Robot>, sep: real, me: nat, k: nat, x: real, mine: Interval, other: Interval)
    requires |rs| == 2 && me < 2 && k == 1 - me && Located(rs[me])
    requires Mine(rs[me], x, None) == mine && AreaOf(rs[k]) == Some(other) && Gap(mine, other) >= sep + rs[me].margin + rs[k].margin
    ensures Allowed(rs, sep, Issue(me, x, None))
  {
    PairCheck(rs, sep, me, k, x, None);
  }

  lemma ExampleAreas(a: Robot, b: Robot, a2: Robot, b1: Robot)
    requires a == Robot(Some(0.0), [], None, 0.0) && b == Robot(Some(200.0), [], None, 0.0)
    requires a2 == a.(tasks := [Task(-100.0, Taken)]) && b1 == b.(tasks := [Task(-40.0, Submitted)])
    ensures AreaOf(a) == Some(Point(0.0)) && AreaOf(b) == Some(Point(200.0))
    ensures AreaOf(a2) == Some(Point(-100.0)) && AreaOf(b1) == Some(Interval(-40.0, 200.0))
  {
    assert a2.tasks[0].state == Taken;
    assert Points(a) == [0.0] && Points(b) == [200.0] && Points(a2) == [-100.0] && Points(b1) == [200.0, -40.0];
    HullOfOne(0.0);
    HullOfOne(200.0);
    HullOfOne(-100.0);
    HullOfTwo(200.0, -40.0);
  }

  lemma RunOne(rs: seq<Robot>, sep: real, steps: seq<Step>, s: Step, now: seq<Robot>)
    requires Run(rs, sep, steps) == Some(now) && Allowed(now, sep, s)
    ensures Run(rs, sep, steps + [s]) == Some(now[s.me := After(now[s.me], s)])
  {
    assert (steps + [s])[..|steps|] == steps;
  }

  /** The check among two robots. */
  lemma PairCheck(rs: seq<Robot>, sep: real, me: nat, k: nat, x: real, pair: Option<real>)
    requires |rs| == 2 && me < 2 && k == 1 - me && AreaOf(rs[k]).Some?
    ensures Check(rs, true, sep, me, x, pair).None?
       <==> Gap(Mine(rs[me], x, pair), AreaOf(rs[k]).value) >= sep + rs[me].margin + rs[k].margin
  {
    var o := Reservation(k, AreaOf(rs[k]).value, rs[k].margin);
    assert IsOther(rs, me, o);
    forall p | p in Others(rs, me) ensures p == o { assert IsOther(rs, me, p); }
  }

  /** A robot of unknown position that holds a pair may be given a task on the far side of another robot. */
  lemma UnknownPositionBreaks()
    ensures var a, b := Robot(None, [], Some(0.0), 0.0), Robot(Some(100.0), [], None, 0.0);
      && Separated([a, b], 50.0) && Check([a, b], true, 50.0, 0, 200.0, None).None?
      && !Separated([After(a, Issue(0, 200.0, None)), b], 50.0)
  {
    var a, b := Robot(None, [], Some(0.0), 0.0), Robot(Some(100.0), [], None, 0.0);
    FarSide(a, b, After(a, Issue(0, 200.0, None)));
  }

  lemma FarSide(a: Robot, b: Robot, a': Robot)
    requires a == Robot(None, [], Some(0.0), 0.0) && b == Robot(Some(100.0), [], None, 0.0) && a' == After(a, Issue(0, 200.0, None))
    ensures Separated([a, b], 50.0) && Check([a, b], true, 50.0, 0, 200.0, None).None? && !Separated([a', b], 50.0)
  {
    UnlocatedArea(a, 200.0, None);
    AreaOfDrop(a);
    AreaOfPlace(b);
    PairApart(a, b, 50.0);
    PairApart(a', b, 50.0);
    PairCheck([a, b], 50.0, 0, 1, 200.0, None);
  }

  lemma AreaOfDrop(r: Robot)
    requires r.tasks == [] && r.current.None? && r.pairDrop.Some?
    ensures AreaOf(r) == Some(Point(r.pairDrop.value))
  {
    assert Points(r) == [r.pairDrop.value];
    HullOfOne(r.pairDrop.value);
  }

  lemma AreaOfPlace(r: Robot)
    requires r.tasks == [] && r.current.Some? && r.pairDrop.None?
    ensures AreaOf(r) == Some(Point(r.current.value))
  {
    assert Points(r) == [r.current.value];
    HullOfOne(r.current.value);
  }

  lemma PairApart(a: Robot, b: Robot, sep: real)
    ensures Separated([a, b], sep) <==> Apart(a, b, sep)
  {
    assert [a, b][0] == a && [a, b][1] == b;
    if Apart(a, b, sep) { Mirror(a, b, sep); }
  }
}
