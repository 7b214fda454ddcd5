/** Switching off without cutting PLC writes in half: `apps/gr-console/src/shutdown.rs`. Time is in milliseconds. */
module Shutdown {
  import opened Wrappers

  const URGENT_BUDGET := 4000
  const URGENT_RESERVE := 1500

  /** `begun` is what the waiters of `wait_begun` see. */
  datatype State = State(draining: bool, next: nat, inflight: map<nat, string>, hard: Option<nat>, begun: Option<string>)

  const START := State(false, 0, map[], None, None)

  /** What other tasks may do between two steps of ours: start a write, end one, ask for the shutdown. */
  datatype Step = Enter(what: string) | Leave(id: nat) | Begin(reason: string, urgent: bool, now: nat)

  function Min(a: nat, b: nat): nat { if a <= b then a else b }

  function EnterStep(s: State, what: string): (Option<nat>, State) {
    if s.draining then (None, s)
    else (Some(s.next + 1), s.(next := s.next + 1, inflight := s.inflight[s.next + 1 := what]))
  }

  function BeginStep(s: State, reason: string, urgent: bool, now: nat): (bool, State) {
    var d := now + URGENT_BUDGET;
    var hard := if urgent then Some(if s.hard.Some? then Min(s.hard.value, d) else d) else s.hard;
    (!s.draining, s.(draining := true, hard := hard, begun := if s.draining then s.begun else Some(reason)))
  }

  function Do(s: State, step: Step): State {
    match step
    case Enter(what) => EnterStep(s, what).1
    case Leave(id) => s.(inflight := s.inflight - {id})
    case Begin(reason, urgent, now) => BeginStep(s, reason, urgent, now).1
  }

  function Run(s: State, steps: seq<Step>): State {
    if steps == [] then s else Do(Run(s, steps[..|steps| - 1]), steps[|steps| - 1])
  }

  // ---------------------------------------------------------------- what every step keeps

  /** Ids are handed out once; the reason is set once the shutdown runs. */
  predicate Inv(s: State) {
    && (forall id | id in s.inflight :: 1 <= id <= s.next)
    && (s.begun.Some? <==> s.draining)
  }

  predicate NotLater(h: Option<nat>, h': Option<nat>) {
    h.Some? ==> h'.Some? && h'.value <= h.value
  }

  predicate Fewer(a: map<nat, string>, b: map<nat, string>) {
    forall id | id in a :: id in b && a[id] == b[id]
  }

  /** Once shutting down always shutting down, with the same reason; the absolute deadline only comes nearer; and while
      shutting down no write starts. */
  predicate Follows(s: State, t: State) {
    && (s.draining ==> t.draining && t.begun == s.begun && t.next == s.next && Fewer(t.inflight, s.inflight))
    && NotLater(s.hard, t.hard) && t.next >= s.next
  }

  lemma {:induction false} RunFollows(s: State, steps: seq<Step>)
    requires Inv(s)
    ensures Inv(Run(s, steps)) && Follows(s, Run(s, steps))
  {
    if steps != [] { RunFollows(s, steps[..|steps| - 1]); }
  }

  lemma {:induction false} RunConcat(s: State, a: seq<Step>, b: seq<Step>)
    ensures Run(s, a + b) == Run(Run(s, a), b)
  {
    if b == [] {
      assert a + b == a;
    } else {
      RunConcat(s, a, b[..|b| - 1]);
      assert (a + b)[..|a + b| - 1] == a + b[..|b| - 1];
    }
  }

  /** The set of writes stays empty, whatever happens, exactly when the shutdown has begun. */
  lemma EmptyForever(s: State)
    requires Inv(s) && s.inflight == map[]
    ensures s.draining <==> forall steps: seq<Step> :: Run(s, steps).inflight == map[]
  {
    if s.draining {
      forall steps: seq<Step> ensures Run(s, steps).inflight == map[] { RunFollows(s, steps); }
    } else {
      var steps := [Enter("write")];
      assert steps[..0] == [];
      assert s.next + 1 in Run(s, steps).inflight;
    }
  }

  /** After the same write has ended: without a shutdown the next one starts, with one it is refused. */
  lemma OkDoesNotLast(what: string, reason: string, urgent: bool, now: nat)
    ensures var ended := [Enter(what), Leave(1)];
      && Run(START, ended).inflight == map[]
      && Run(START, ended + [Enter(what)]).inflight == map[2 := what]
      && Run(START, ended + [Begin(reason, urgent, now), Enter(what)]).inflight == map[]
  {
    var ended := [Enter(what), Leave(1)];
    assert ended[..1] == [Enter(what)] && [Enter(what)][..0] == [];
    assert Run(START, [Enter(what)]).inflight == map[1 := what];
    RunConcat(START, ended, [Enter(what)]);
    RunConcat(START, ended, [Begin(reason, urgent, now), Enter(what)]);
    assert [Begin(reason, urgent, now), Enter(what)][..1] == [Begin(reason, urgent, now)];
    assert [Begin(reason, urgent, now)][..0] == [];
  }

  /** Did step `k` of the run begin the shutdown? */
  predicate BeganAt(s: State, steps: seq<Step>, k: nat) {
    k < |steps| && steps[k].Begin? && BeginStep(Run(s, steps[..k]), steps[k].reason, steps[k].urgent, steps[k].now).0
  }

  /** `begin` returns true for the first request of a run and for no other; its reason is the one reported. */
  lemma BegunOnce(s: State, steps: seq<Step>, k: nat)
    requires Inv(s) && !s.draining && k < |steps| && steps[k].Begin?
    ensures BeganAt(s, steps, k) <==> forall j | 0 <= j < k :: !steps[j].Begin?
    ensures BeganAt(s, steps, k) ==> Run(s, steps).begun == Some(steps[k].reason)
  {
    DrainingIff(s, steps[..k]);
    assert forall j | 0 <= j < k :: steps[..k][j] == steps[j];
    if BeganAt(s, steps, k) {
      assert steps[..k + 1][..k] == steps[..k];
      RunFollows(s, steps[..k + 1]);
      assert steps == steps[..k + 1] + steps[k + 1..];
      RunConcat(s, steps[..k + 1], steps[k + 1..]);
      RunFollows(Run(s, steps[..k + 1]), steps[k + 1..]);
    }
  }

  lemma {:induction false} DrainingIff(s: State, steps: seq<Step>)
    requires !s.draining
    ensures Run(s, steps).draining <==> exists j :: 0 <= j < |steps| && steps[j].Begin?
  {
    if steps != [] {
      var front := steps[..|steps| - 1];
      DrainingIff(s, front);
      assert forall j | 0 <= j < |front| :: front[j] == steps[j];
      if j :| 0 <= j < |steps| && steps[j].Begin? {
        if j < |front| { assert front[j].Begin?; }
      }
    }
  }

  /** A write that started is the only one with its id, and ends only when it is dropped. */
  lemma EntryStays(s: State, what: string, steps: seq<Step>)
    requires Inv(s) && !s.draining
    requires forall k | 0 <= k < |steps| :: steps[k] != Leave(s.next + 1)
    ensures s.next + 1 !in s.inflight
    ensures s.next + 1 in Run(EnterStep(s, what).1, steps).inflight && Run(EnterStep(s, what).1, steps).inflight[s.next + 1] == what
  {
    if steps != [] {
      var front := steps[..|steps| - 1];
      EntryStays(s, what, front);
      RunFollows(EnterStep(s, what).1, front);
    }
  }

  // ---------------------------------------------------------------- what is pending

  /** The descriptions of the writes with ids up to `n`, in id order. */
  function NamesUpTo(m: map<nat, string>, n: nat): seq<string> {
    if n == 0 then [] else NamesUpTo(m, n - 1) + if n in m then [m[n]] else []
  }

  /** `pending` */
  function Names(s: State): seq<string> {
    NamesUpTo(s.inflight, s.next)
  }

  lemma {:induction false} NoNames(m: map<nat, string>, n: nat)
    ensures NamesUpTo(m, n) == [] <==> forall id | 1 <= id <= n :: id !in m
  {
    if n > 0 { NoNames(m, n - 1); }
  }

  lemma NothingPending(s: State)
    requires Inv(s)
    ensures Names(s) == [] <==> s.inflight == map[]
  {
    NoNames(s.inflight, s.next);
    if Names(s) == [] { assert forall id :: id !in s.inflight; }
  }

  /** `ids` are the writes in flight, oldest first. */
  ghost predicate InOrder(m: map<nat, string>, ids: seq<nat>) {
    && (forall i, j | 0 <= i < j < |ids| :: ids[i] < ids[j])
    && forall id :: id in ids <==> id in m
  }

  /** `pending` lists every write in flight once, in the order in which they were started. */
  lemma PendingIsAll(s: State) returns (ids: seq<nat>)
    requires Inv(s)
    ensures InOrder(s.inflight, ids) && |Names(s)| == |ids| && forall k | 0 <= k < |ids| :: ids[k] in s.inflight && Names(s)[k] == s.inflight[ids[k]]
  {
    ids := NamesOf(s.inflight, s.next);
  }

  lemma {:induction false} NamesOf(m: map<nat, string>, n: nat) returns (ids: seq<nat>)
    ensures (forall i, j | 0 <= i < j < |ids| :: ids[i] < ids[j]) && forall id :: id in ids <==> id in m && 1 <= id <= n
    ensures |NamesUpTo(m, n)| == |ids| && forall k | 0 <= k < |ids| :: ids[k] in m && NamesUpTo(m, n)[k] == m[ids[k]]
  {
    if n == 0 {
      ids := [];
    } else {
      ids := NamesOf(m, n - 1);
      if n in m { ids := ids + [n]; }
    }
  }

  /** The instant at which `drain` gives up. */
  function Deadline(s: State, start: nat, timeout: nat): nat {
    var d := start + timeout;
    if s.hard.None? then d else Min(d, if s.hard.value >= URGENT_RESERVE then s.hard.value - URGENT_RESERVE else s.hard.value)
  }

  /** `budget` */
  function Budget(s: State, normal: nat, reserve: nat, now: nat): nat {
    if s.hard.None? then normal
    else
      var left := if s.hard.value >= now then s.hard.value - now else 0;
      Min(normal, if left >= reserve then left - reserve else 0)
  }

  /** The budget never exceeds the normal limit nor what is left before the absolute deadline, keeps the reserve free, wastes
      nothing of what is left, and a later state has no more of it. */
  lemma BudgetFits(s: State, steps: seq<Step>, normal: nat, reserve: nat, now: nat, later: nat)
    requires Inv(s) && now <= later
    ensures Budget(s, normal, reserve, now) <= normal
    ensures s.hard.Some? && Budget(s, normal, reserve, now) > 0 ==> now + Budget(s, normal, reserve, now) + reserve <= s.hard.value
    ensures Budget(s, normal, reserve, now) == normal || (s.hard.Some? && now + Budget(s, normal, reserve, now) + reserve >= s.hard.value)
    ensures Budget(Run(s, steps), normal, reserve, later) <= Budget(s, normal, reserve, now)
  {
    RunFollows(s, steps);
  }

  /** An urgent request leaves at most four seconds, never more than an earlier one left; a normal one sets no deadline. */
  lemma UrgentHurries(s: State, reason: string, urgent: bool, now: nat)
    ensures var hard := Do(s, Begin(reason, urgent, now)).hard;
      if urgent then hard.Some? && hard.value <= now + 4000 && (s.hard.Some? ==> hard.value <= s.hard.value)
                     && (hard == Some(now + 4000) || hard == s.hard)
      else hard == s.hard
  {
  }

  /** `drain` gives up: the time it was given is over, or only the last 1500 ms before the absolute deadline are left. */
  predicate Overdue(s: State, now: nat, start: nat, timeout: nat) {
    || now >= start + timeout
    || (s.hard.Some? && now >= if s.hard.value >= 1500 then s.hard.value - 1500 else s.hard.value)
  }

  lemma DeadlineIsOverdue(s: State, now: nat, start: nat, timeout: nat)
    ensures now >= Deadline(s, start, timeout) <==> Overdue(s, now, start, timeout)
  {
  }

  // ---------------------------------------------------------------- the coordinator

  /** One wake-up of `drain`: what others did before it looks, and between its two looks. */
  datatype Wake = Wake(now: nat, before: seq<Step>, between: seq<Step>)

  /** All that others did up to the end of these wake-ups. */
  function Meanwhile(wakes: seq<Wake>): seq<Step> {
    if wakes == [] then []
    else Meanwhile(wakes[..|wakes| - 1]) + wakes[|wakes| - 1].before + wakes[|wakes| - 1].between
  }

  /** The state in which wake-up `i` lists the writes. */
  function Listed(s: State, wakes: seq<Wake>, i: nat): State
    requires i < |wakes|
  {
    Run(s, Meanwhile(wakes[..i]) + wakes[i].before)
  }

  /** The state in which wake-up `i` looks at the clock. */
  function Clocked(s: State, wakes: seq<Wake>, i: nat): State
    requires i < |wakes|
  {
    Run(s, Meanwhile(wakes[..i + 1]))
  }

  /** Wake-up `i` finds writes in flight and time left. */
  predicate StillWaits(s: State, wakes: seq<Wake>, i: nat, start: nat, timeout: nat)
    requires i < |wakes|
  {
    Listed(s, wakes, i).inflight != map[] && !Overdue(Clocked(s, wakes, i), wakes[i].now, start, timeout)
  }

  lemma MeanwhileNext(s: State, wakes: seq<Wake>, i: nat)
    requires i < |wakes|
    ensures Listed(s, wakes, i) == Run(Run(s, Meanwhile(wakes[..i])), wakes[i].before)
    ensures Clocked(s, wakes, i) == Run(Listed(s, wakes, i), wakes[i].between)
  {
    assert wakes[..i + 1][..i] == wakes[..i];
    RunConcat(s, Meanwhile(wakes[..i]), wakes[i].before);
    RunConcat(s, Meanwhile(wakes[..i]) + wakes[i].before, wakes[i].between);
  }

  /** The lists that differ from the one before. */
  function Changes(lists: seq<seq<string>>): seq<seq<string>> {
    if lists == [] then []
    else
      var n := |lists| - 1;
      Changes(lists[..n]) + if n == 0 || lists[n] != lists[n - 1] then [lists[n]] else []
  }

  /** A list is reported when it is the first or differs from the last one reported. */
  lemma ChangesNext(lists: seq<seq<string>>, x: seq<string>)
    ensures var told := Changes(lists);
      Changes(lists + [x]) == if told != [] && told[|told| - 1] == x then told else told + [x]
  {
    assert (lists + [x])[..|lists|] == lists;
    if lists != [] { LastChange(lists); }
  }

  lemma {:induction false} LastChange(lists: seq<seq<string>>)
    requires lists != []
    ensures Changes(lists) != [] && Changes(lists)[|Changes(lists)| - 1] == lists[|lists| - 1]
  {
    var n := |lists| - 1;
    if n > 0 {
      LastChange(lists[..n]);
      assert lists[..n][n - 1] == lists[n - 1];
    }
  }

  /** What wake-ups before `n` listed. */
  function Lists(s: State, wakes: seq<Wake>, n: nat): (lists: seq<seq<string>>)
    requires n <= |wakes|
    ensures |lists| == n && forall i | 0 <= i < n :: lists[i] == Names(Listed(s, wakes, i))
  {
    seq(n, i requires 0 <= i < n => Names(Listed(s, wakes, i)))
  }

  /** What `drain` comes to after it went on waiting at `n` wake-ups. */
  predicate Drained(s: State, wakes: seq<Wake>, start: nat, timeout: nat, r: Option<Result<(), seq<string>>>, told: seq<seq<string>>, n: nat, now: State) {
    && n <= |wakes| && (forall i | 0 <= i < n :: StillWaits(s, wakes, i, start, timeout))
    && match r
       case None => n == |wakes| && now == Run(s, Meanwhile(wakes)) && told == Changes(Lists(s, wakes, n))
       case Some(Ok(_)) => n < |wakes| && now == Listed(s, wakes, n) && now.inflight == map[] && told == Changes(Lists(s, wakes, n))
       case Some(Err(names)) =>
         && n < |wakes| && now == Clocked(s, wakes, n) && Overdue(now, wakes[n].now, start, timeout)
         && names == Names(Listed(s, wakes, n)) && names != [] && told == Changes(Lists(s, wakes, n + 1))
  }

  /** `drain` goes on before wake-up `n`. */
  predicate Draining(s: State, wakes: seq<Wake>, start: nat, timeout: nat, told: seq<seq<string>>, n: nat, now: State) {
    && n <= |wakes| && (forall i | 0 <= i < n :: StillWaits(s, wakes, i, start, timeout))
    && now == Run(s, Meanwhile(wakes[..n])) && told == Changes(Lists(s, wakes, n))
  }

  /** What one look makes of it. */
  predicate Looked(looked: State, now: State, wake: Wake, start: nat, timeout: nat, told: seq<seq<string>>, told': seq<seq<string>>,
                   r: Option<Result<(), seq<string>>>) {
    && now == (if looked.inflight == map[] then looked else Run(looked, wake.between))
    && r == (if looked.inflight == map[] then Some(Ok(()))
             else if Overdue(now, wake.now, start, timeout) then Some(Err(Names(looked))) else None)
    && told' == if looked.inflight == map[] || (told != [] && told[|told| - 1] == Names(looked)) then told else told + [Names(looked)]
  }

  lemma ListsNext(s: State, wakes: seq<Wake>, n: nat)
    requires n < |wakes|
    ensures Lists(s, wakes, n + 1) == Lists(s, wakes, n) + [Names(Listed(s, wakes, n))]
  {
  }

  /** Wake-up `n` as `drain` sees it. */
  lemma WakeStates(s: State, wakes: seq<Wake>, n: nat, was: State, looked: State, told: seq<seq<string>>)
    requires Inv(s) && n < |wakes| && was == Run(s, Meanwhile(wakes[..n])) && looked == Run(was, wakes[n].before)
    requires told == Changes(Lists(s, wakes, n))
    ensures looked == Listed(s, wakes, n) && Run(looked, wakes[n].between) == Clocked(s, wakes, n)
    ensures Names(looked) == [] <==> looked.inflight == map[]
    ensures Changes(Lists(s, wakes, n + 1)) == if told != [] && told[|told| - 1] == Names(looked) then told else told + [Names(looked)]
  {
    MeanwhileNext(s, wakes, n);
    ListsNext(s, wakes, n);
    ChangesNext(Lists(s, wakes, n), Names(looked));
    DecidesAt(s, wakes, n);
  }

  lemma LookGoesOn(s: State, wakes: seq<Wake>, start: nat, timeout: nat, told: seq<seq<string>>, n: nat, was: State,
                   looked: State, now: State, told': seq<seq<string>>)
    requires Inv(s) && Draining(s, wakes, start, timeout, told, n, was) && n < |wakes|
    requires looked == Run(was, wakes[n].before) && Looked(looked, now, wakes[n], start, timeout, told, told', None)
    ensures Draining(s, wakes, start, timeout, told', n + 1, now)
  {
    WakeStates(s, wakes, n, was, looked, told);
    assert StillWaits(s, wakes, n, start, timeout);
  }

  lemma LookStops(s: State, wakes: seq<Wake>, start: nat, timeout: nat, told: seq<seq<string>>, n: nat, was: State,
                  looked: State, now: State, told': seq<seq<string>>, r: Result<(), seq<string>>)
    requires Inv(s) && Draining(s, wakes, start, timeout, told, n, was) && n < |wakes|
    requires looked == Run(was, wakes[n].before) && Looked(looked, now, wakes[n], start, timeout, told, told', Some(r))
    ensures Drained(s, wakes, start, timeout, Some(r), told', n, now)
  {
    WakeStates(s, wakes, n, was, looked, told);
  }

  /** `drain` gives up at the first wake-up that finds something in flight and the time over, ends well at the first that finds
      nothing, and waits exactly as long as neither comes. */
  lemma DrainDecides(s: State, wakes: seq<Wake>, start: nat, timeout: nat, r: Option<Result<(), seq<string>>>, told: seq<seq<string>>, n: nat, now: State)
    requires Inv(s) && Drained(s, wakes, start, timeout, r, told, n, now)
    ensures r.None? <==> forall i | 0 <= i < |wakes| :: StillWaits(s, wakes, i, start, timeout)
    ensures r.Some? ==> !StillWaits(s, wakes, n, start, timeout)
    ensures r.Some? ==> (r.value.Ok? <==> Listed(s, wakes, n).inflight == map[])
  {
    if r.Some? {
      DecidesAt(s, wakes, n);
      assert !StillWaits(s, wakes, n, start, timeout);
    }
  }

  lemma DecidesAt(s: State, wakes: seq<Wake>, n: nat)
    requires Inv(s) && n < |wakes|
    ensures Names(Listed(s, wakes, n)) == [] <==> Listed(s, wakes, n).inflight == map[]
  {
    RunFollows(s, Meanwhile(wakes[..n]) + wakes[n].before);
    NothingPending(Listed(s, wakes, n));
  }

  class Coordinator {
    var draining: bool
    var next: nat
    var inflight: map<nat, string>
    var hard: Option<nat>
    var begun: Option<string>

    function Now(): State
      reads this
    {
      State(draining, next, inflight, hard, begun)
    }

    predicate Valid()
      reads this
    {
      Inv(Now())
    }

    constructor ()
      ensures Valid() && Now() == START
    {
      draining, next, inflight, hard, begun := false, 0, map[], None, None;
    }

    /** Checking and registering are one critical section. */
    method Enter(what: string) returns (r: Option<nat>)
      requires Valid()
      modifies this
      ensures Valid() && (r, Now()) == EnterStep(old(Now()), what)
      ensures r.Some? ==> r.value !in old(inflight) && r.value in inflight
    {
      if draining { return None; }
      next := next + 1;
      inflight := inflight[next := what];
      r := Some(next);
    }

    /** `InFlight` is dropped. */
    method Leave(id: nat)
      requires Valid()
      modifies this
      ensures Valid() && Now() == Do(old(Now()), Step.Leave(id))
    {
      inflight := inflight - {id};
    }

    method Begin(reason: string, urgent: bool, now: nat) returns (first: bool)
      requires Valid()
      modifies this
      ensures Valid() && (first, Now()) == BeginStep(old(Now()), reason, urgent, now)
    {
      if urgent {
        var d := now + URGENT_BUDGET;
        hard := Some(if hard.Some? then Min(hard.value, d) else d);
      }
      first := !draining;
      draining := true;
      if first { begun := Some(reason); }
    }

    method Others(steps: seq<Step>)
      requires Valid()
      modifies this
      ensures Valid() && Now() == Run(old(Now()), steps)
    {
      ghost var was := Now();
      for i := 0 to |steps|
        invariant Valid() && Now() == Run(was, steps[..i])
      {
        assert steps[..i + 1][..i] == steps[..i];
        match steps[i] {
          case Enter(what) => var _ := Enter(what);
          case Leave(id) => Leave(id);
          case Begin(reason, urgent, now) => var _ := Begin(reason, urgent, now);
        }
      }
      assert steps[..|steps|] == steps;
    }

    /** One round of `drain`: list the writes, report a changed list, then look at the clock. It ends well exactly when nothing
        is in flight, and gives up exactly when something is and the time is over. */
    method Look(wake: Wake, start: nat, timeout: nat, told: seq<seq<string>>)
      returns (r: Option<Result<(), seq<string>>>, told': seq<seq<string>>, ghost looked: State)
      requires Valid()
      modifies this
      ensures Valid() && looked == Run(old(Now()), wake.before)
      ensures Looked(looked, Now(), wake, start, timeout, told, told', r)
    {
      Others(wake.before);
      looked := Now();
      told' := told;
      NothingPending(Now());
      var now := Names(Now());
      if now == [] { return Some(Ok(())), told', looked; }
      if told == [] || told[|told| - 1] != now { told' := told + [now]; }
      Others(wake.between);
      DeadlineIsOverdue(Now(), wake.now, start, timeout);
      r := if wake.now >= Deadline(Now(), start, timeout) then Some(Err(now)) else None;
    }

    /** `drain`, through the wake-ups of `wakes`; `None` when it still waits after them. `told` are the lists passed to
        `on_change`, `n` is the number of wake-ups after which it went on waiting. */
    method Drain(start: nat, timeout: nat, wakes: seq<Wake>)
      returns (r: Option<Result<(), seq<string>>>, told: seq<seq<string>>, ghost n: nat)
      requires Valid()
      modifies this
      ensures Valid() && Drained(old(Now()), wakes, start, timeout, r, told, n, Now())
    {
      ghost var was := Now();
      told, n, r := [], 0, None;
      for i := 0 to |wakes|
        invariant Valid() && n == i && Draining(was, wakes, start, timeout, told, i, Now())
      {
        ghost var before, told0 := Now(), told;
        ghost var looked;
        r, told, looked := Look(wakes[i], start, timeout, told);
        if r.Some? {
          LookStops(was, wakes, start, timeout, told0, i, before, looked, Now(), told, r.value);
          return;
        }
        LookGoesOn(was, wakes, start, timeout, told0, i, before, looked, Now(), told);
        n := i + 1;
      }
      assert wakes[..|wakes|] == wakes;
      r := None;
    }
  }
}
