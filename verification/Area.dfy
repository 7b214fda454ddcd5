/** Work areas of robots on one shared axis: `apps/gr-console/src/area.rs`. Positions are real numbers. */
module Area {
  import opened Wrappers

  datatype Interval = Interval(lo: real, hi: real)

  predicate Wf(i: Interval) {
    i.lo <= i.hi
  }

  predicate Contains(i: Interval, x: real) {
    i.lo <= x <= i.hi
  }

  function Min(a: real, b: real): real { if a <= b then a else b }

  function Max(a: real, b: real): real { if a >= b then a else b }

  function Point(x: real): Interval {
    Interval(x, x)
  }

  function Span(a: real, b: real): Interval {
    Interval(Min(a, b), Max(a, b))
  }

  function With(i: Interval, x: real): Interval {
    Interval(Min(i.lo, x), Max(i.hi, x))
  }

  function Gap(a: Interval, b: Interval): real {
    Max(Max(a.lo, b.lo) - Min(a.hi, b.hi), 0.0)
  }

  function Distance(x: real, y: real): real {
    if x >= y then x - y else y - x
  }

  /** The gap is the smallest distance between a point of one interval and a point of the other, and is attained. */
  lemma GapIsDistance(a: Interval, b: Interval)
    requires Wf(a) && Wf(b)
    ensures forall x, y | Contains(a, x) && Contains(b, y) :: Distance(x, y) >= Gap(a, b)
    ensures exists x, y :: Contains(a, x) && Contains(b, y) && Distance(x, y) == Gap(a, b)
  {
    if a.hi < b.lo {
      assert Contains(a, a.hi) && Contains(b, b.lo) && Distance(a.hi, b.lo) == Gap(a, b);
    } else if b.hi < a.lo {
      assert Contains(a, a.lo) && Contains(b, b.hi) && Distance(a.lo, b.hi) == Gap(a, b);
    } else {
      var x := Max(a.lo, b.lo);
      assert Contains(a, x) && Contains(b, x) && Distance(x, x) == Gap(a, b);
    }
  }

  // ---------------------------------------------------------------- hulls

  function Hull(xs: seq<real>): (h: Option<Interval>)
    ensures h.Some? <==> xs != []
    ensures h.Some? ==> Wf(h.value)
  {
    if xs == [] then None
    else
      var x := xs[|xs| - 1];
      match Hull(xs[..|xs| - 1])
      case None => Some(Point(x))
      case Some(i) => Some(With(i, x))
  }

  /** The hull lies in an interval exactly when all the points do. */
  lemma {:induction false} HullIsLeast(xs: seq<real>, i: Interval)
    requires xs != []
    ensures Inside(Hull(xs).value, i) <==> forall k | 0 <= k < |xs| :: Contains(i, xs[k])
  {
    var front := xs[..|xs| - 1];
    if front != [] {
      HullIsLeast(front, i);
      assert forall k | 0 <= k < |front| :: front[k] == xs[k];
    }
  }

  predicate Inside(a: Interval, b: Interval) {
    b.lo <= a.lo && a.hi <= b.hi
  }

  lemma HullHas(xs: seq<real>, k: nat)
    requires k < |xs|
    ensures Contains(Hull(xs).value, xs[k])
  {
    HullIsLeast(xs, Hull(xs).value);
  }

  /** A hull of fewer points lies inside. */
  lemma HullShrinks(xs: seq<real>, i: Interval)
    requires forall k | 0 <= k < |xs| :: Contains(i, xs[k])
    ensures xs != [] ==> Inside(Hull(xs).value, i)
  {
    if xs != [] { HullIsLeast(xs, i); }
  }

  /** An interval inside another keeps at least its distance. */
  lemma GapOfInside(a: Interval, b: Interval, o: Interval)
    requires Wf(a) && Inside(a, b)
    ensures Gap(a, o) >= Gap(b, o)
  {
  }

  /** Two intervals that share a point: what lies in their common hull is as far away as the nearer of the two. */
  lemma GapOfJoined(a: Interval, b: Interval, h: Interval, o: Interval, x: real)
    requires Wf(a) && Wf(b) && Wf(h) && Wf(o) && Contains(a, x) && Contains(b, x)
    requires h.lo >= Min(a.lo, b.lo) && h.hi <= Max(a.hi, b.hi)
    ensures Gap(h, o) >= Min(Gap(a, o), Gap(b, o))
  {
  }

  // ---------------------------------------------------------------- reservations

  function Opt(x: Option<real>): seq<real> {
    if x.Some? then [x.value] else []
  }

  function TaskArea(lastTarget: Option<real>, current: Option<real>, target: real, pairDrop: Option<real>): (i: Interval)
    ensures Wf(i) && Contains(i, target) && (pairDrop.Some? ==> Contains(i, pairDrop.value))
    ensures lastTarget.Some? ==> Contains(i, lastTarget.value)
    ensures lastTarget.None? && current.Some? ==> Contains(i, current.value)
  {
    var start := if lastTarget.Some? then lastTarget.value else if current.Some? then current.value else target;
    var i := Span(start, target);
    if pairDrop.Some? then With(i, pairDrop.value) else i
  }

  datatype TaskState = Submitted | Taken

  /** A task under way with its target; `Taken` stands for accepted, queued or running. */
  datatype Task = Task(x: real, state: TaskState)

  datatype Robot = Robot(current: Option<real>, tasks: seq<Task>, pairDrop: Option<real>, margin: real)

  datatype Reservation = Reservation(robot: nat, area: Interval, margin: real)

  function Targets(tasks: seq<Task>): (xs: seq<real>)
    ensures |xs| == |tasks| && forall k | 0 <= k < |tasks| :: xs[k] == tasks[k].x
  {
    seq(|tasks|, k requires 0 <= k < |tasks| => tasks[k].x)
  }

  predicate Committed(r: Robot) {
    exists k :: 0 <= k < |r.tasks| && r.tasks[k].state == Taken
  }

  /** The points a robot holds: its targets, the drop of its pair, and where it stands unless it is bound to leave. */
  function Points(r: Robot): seq<real> {
    (if Committed(r) then [] else Opt(r.current)) + Targets(r.tasks) + Opt(r.pairDrop)
  }

  /** `reservation` */
  function AreaOf(r: Robot): Option<Interval> {
    Hull(Points(r))
  }

  /** The reservation belongs to another robot than `me`. */
  predicate IsOther(rs: seq<Robot>, me: nat, o: Reservation) {
    o.robot < |rs| && o.robot != me && AreaOf(rs[o.robot]) == Some(o.area) && rs[o.robot].margin == o.margin
  }

  /** `others` */
  function Others(rs: seq<Robot>, me: nat): (os: seq<Reservation>)
    ensures forall o :: o in os <==> IsOther(rs, me, o)
  {
    if rs == [] then []
    else
      var n := |rs| - 1;
      var os := Others(rs[..n], me);
      OthersGrow(rs, me, os);
      if n == me || AreaOf(rs[n]).None? then os else os + [Reservation(n, AreaOf(rs[n]).value, rs[n].margin)]
  }

  lemma OthersGrow(rs: seq<Robot>, me: nat, os: seq<Reservation>)
    requires rs != [] && forall o :: o in os <==> IsOther(rs[..|rs| - 1], me, o)
    ensures var n := |rs| - 1;
      var more := if n == me || AreaOf(rs[n]).None? then os else os + [Reservation(n, AreaOf(rs[n]).value, rs[n].margin)];
      forall o :: o in more <==> IsOther(rs, me, o)
  {
    var n := |rs| - 1;
    forall o ensures IsOther(rs, me, o) <==> IsOther(rs[..n], me, o) || (n != me && o.robot == n && IsOther(rs, me, o)) {
      if o.robot < n { assert rs[..n][o.robot] == rs[o.robot]; }
    }
  }

  /** `blocker`: the first that is too near. */
  function Blocker(mine: Interval, os: seq<Reservation>, sep: real): (b: Option<Reservation>)
    ensures b.None? <==> forall o | o in os :: Gap(mine, o.area) >= sep + o.margin
    ensures b.Some? ==> b.value in os && Gap(mine, b.value.area) < sep + b.value.margin
  {
    if os == [] then None
    else if Gap(mine, os[0].area) < sep + os[0].margin then Some(os[0])
    else Blocker(mine, os[1..], sep)
  }

  function Slack(mine: Interval, o: Reservation, sep: real): real {
    Gap(mine, o.area) - (sep + o.margin)
  }

  /** `tightest`: the first with the least slack. */
  function Tightest(mine: Interval, os: seq<Reservation>, sep: real): (t: Option<Reservation>)
    ensures t.None? <==> os == []
  {
    if os == [] then None
    else
      match Tightest(mine, os[1..], sep)
      case None => Some(os[0])
      case Some(t) => if Slack(mine, os[0], sep) <= Slack(mine, t, sep) then Some(os[0]) else Some(t)
  }

  lemma {:induction false} TightestIsLeast(mine: Interval, os: seq<Reservation>, sep: real)
    requires os != []
    ensures Tightest(mine, os, sep).value in os
    ensures forall o | o in os :: Slack(mine, Tightest(mine, os, sep).value, sep) <= Slack(mine, o, sep)
  {
    if |os| > 1 { TightestIsLeast(mine, os[1..], sep); }
  }

  /** The tightest one has negative slack exactly when someone blocks. */
  lemma TightestAgreesWithBlocker(mine: Interval, os: seq<Reservation>, sep: real)
    ensures Blocker(mine, os, sep).Some? <==> os != [] && Slack(mine, Tightest(mine, os, sep).value, sep) < 0.0
  {
    if os != [] { TightestIsLeast(mine, os, sep); }
  }

  function LastTarget(r: Robot): Option<real> {
    if r.tasks == [] then None else Some(r.tasks[|r.tasks| - 1].x)
  }

  /** `check`: who keeps robot `me` from taking a task to `x`. */
  function Check(rs: seq<Robot>, enabled: bool, sep: real, me: nat, x: real, pairDrop: Option<real>): Option<Reservation>
    requires me < |rs|
  {
    if !enabled || |rs| < 2 then None
    else Blocker(TaskArea(LastTarget(rs[me]), rs[me].current, x, pairDrop), Others(rs, me), sep + rs[me].margin)
  }

  // ---------------------------------------------------------------- the check, said in points

  /** The area of a task holds the way from the start to the target and the drop of a pair, and no more: an interval that holds these
      points holds the area. */
  lemma TaskAreaIsLeast(lastTarget: Option<real>, current: Option<real>, target: real, pairDrop: Option<real>, i: Interval)
    ensures Inside(TaskArea(lastTarget, current, target, pairDrop), i) <==>
      && Contains(i, target) && (pairDrop.Some? ==> Contains(i, pairDrop.value))
      && (lastTarget.Some? ==> Contains(i, lastTarget.value))
      && (lastTarget.None? && current.Some? ==> Contains(i, current.value))
  {
  }

  /** The robot holds this point: the target of one of its tasks, the drop of its pair, or where it stands while no task is taken. */
  predicate HoldsPoint(r: Robot, x: real) {
    || (exists k :: 0 <= k < |r.tasks| && r.tasks[k].x == x)
    || r.pairDrop == Some(x)
    || (r.current == Some(x) && forall k | 0 <= k < |r.tasks| :: r.tasks[k].state != Taken)
  }

  lemma PointsAreHeld(r: Robot, x: real)
    ensures HoldsPoint(r, x) <==> exists k :: 0 <= k < |Points(r)| && Points(r)[k] == x
  {
    var front, targets := if Committed(r) then [] else Opt(r.current), Targets(r.tasks);
    if k :| 0 <= k < |r.tasks| && r.tasks[k].x == x { assert Points(r)[|front| + k] == x; }
    if r.pairDrop == Some(x) { assert Points(r)[|front| + |targets|] == x; }
    if !Committed(r) && r.current == Some(x) { assert Points(r)[0] == x; }
    if k :| 0 <= k < |Points(r)| && Points(r)[k] == x {
      if |front| <= k < |front| + |targets| { assert r.tasks[k - |front|].x == x; }
    }
  }

  /** The reservation of a robot is the least interval with all the points that it holds; without any it has none. */
  lemma ReservationIsLeast(r: Robot, i: Interval)
    ensures AreaOf(r).None? <==> forall x :: !HoldsPoint(r, x)
    ensures AreaOf(r).Some? ==> (Inside(AreaOf(r).value, i) <==> forall x | HoldsPoint(r, x) :: Contains(i, x))
  {
    forall x ensures HoldsPoint(r, x) <==> exists k :: 0 <= k < |Points(r)| && Points(r)[k] == x { PointsAreHeld(r, x); }
    if Points(r) != [] {
      HullIsLeast(Points(r), i);
      assert HoldsPoint(r, Points(r)[0]);
      forall k | 0 <= k < |Points(r)| ensures HoldsPoint(r, Points(r)[k]) {}
    }
  }

  /** With the check on and another robot there, a task is let through exactly when everybody else's reservation is as far from its
      area as the separation and both margins; with the check off, or alone, always. */
  lemma CheckExactly(rs: seq<Robot>, enabled: bool, sep: real, me: nat, x: real, pairDrop: Option<real>)
    requires me < |rs|
    ensures var r := rs[me];
      var last := if r.tasks == [] then None else Some(r.tasks[|r.tasks| - 1].x);
      Check(rs, enabled, sep, me, x, pairDrop).None? <==>
        !enabled || |rs| < 2 || forall k | 0 <= k < |rs| && k != me && AreaOf(rs[k]).Some? ::
          Gap(TaskArea(last, r.current, x, pairDrop), AreaOf(rs[k]).value) >= sep + r.margin + rs[k].margin
  {
    if enabled && |rs| >= 2 {
      var mine := TaskArea(LastTarget(rs[me]), rs[me].current, x, pairDrop);
      forall k | 0 <= k < |rs| && k != me && AreaOf(rs[k]).Some? ensures Reservation(k, AreaOf(rs[k]).value, rs[k].margin) in Others(rs, me) {
        assert IsOther(rs, me, Reservation(k, AreaOf(rs[k]).value, rs[k].margin));
      }
      forall o | o in Others(rs, me) ensures IsOther(rs, me, o) {}
    }
  }

  /** Who is reported: the first in the order of the robots that is too near. */
  lemma {:induction false} BlockerIsFirst(mine: Interval, os: seq<Reservation>, sep: real) returns (k: nat)
    requires Blocker(mine, os, sep).Some?
    ensures k < |os| && os[k] == Blocker(mine, os, sep).value && Gap(mine, os[k].area) < sep + os[k].margin
    ensures forall j | 0 <= j < k :: Gap(mine, os[j].area) >= sep + os[j].margin
  {
    k := 0;
    if Gap(mine, os[0].area) >= sep + os[0].margin {
      var more := BlockerIsFirst(mine, os[1..], sep);
      k := more + 1;
    }
  }

  /** The tightest is the first with the least slack. */
  lemma {:induction false} TightestIsFirst(mine: Interval, os: seq<Reservation>, sep: real) returns (k: nat)
    requires os != []
    ensures k < |os| && os[k] == Tightest(mine, os, sep).value
    ensures forall j | 0 <= j < k :: Gap(mine, os[j].area) - sep - os[j].margin > Gap(mine, os[k].area) - sep - os[k].margin
  {
    k := 0;
    if |os| > 1 {
      var more := TightestIsFirst(mine, os[1..], sep);
      if Tightest(mine, os, sep).value != os[0] || Slack(mine, os[0], sep) > Slack(mine, os[1..][more], sep) { k := more + 1; }
      if k > 0 { TightestIsLeast(mine, os, sep); }
    }
  }
}
