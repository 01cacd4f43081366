/** The delayed dispatcher: a lock and condition variable over a deadline-ordered heap, with any number of
    scheduling threads, one dispatcher thread, and a clock that may move between any two steps. */
module DelayQueue {

  datatype Entry = Entry(deadline: real, seqNo: nat)

  /** Heap order: by deadline, then by insertion. */
  predicate Before(a: Entry, b: Entry) {
    a.deadline < b.deadline || (a.deadline == b.deadline && a.seqNo < b.seqNo)
  }

  /** Where the dispatcher thread is. Between reading the clock, at time `read`, and starting its timed wait it
      still holds the lock, while time goes on: `lag` is how long that took. */
  datatype Thread =
    | Acquiring                                  // wants the lock: at start, after a wait, after a callback
    | Holding                                    // at the top of the loop
    | WaitForever(notified: bool)
    | AboutToWait(remaining: real, read: real)
    | WaitUntil(wake: real, notified: bool, lag: real)
    | Running(entry: Entry)                      // in a callback, lock released
    | Exited

  /** One dispatch: the entry, when it started, and how many entries had been scheduled by then. */
  datatype Start = Start(entry: Entry, at: real, scheduled: nat)

  /** `pushed` and `started` are history. `prepared` holds the run time a scheduling thread has computed
      before it takes the lock. */
  datatype State = State(
    now: real, heap: set<Entry>, counter: nat, stop: bool, thread: Thread, prepared: map<nat, real>,
    pushed: seq<Entry>, started: seq<Start>)

  const INIT := State(0.0, {}, 0, false, Acquiring, map[], [], [])

  datatype Action =
    | Tick(dt: real)
    | Prepare(scheduler: nat, delay: real)
    | Push(scheduler: nat)
    | Close
    | Acquire
    | Turn        // one turn of the loop, up to the next point where the lock is released
    | Block       // the timed wait begins, and with it the timeout
    | Wake        // a notification arrived or the timeout passed
    | Return      // the callback returned
    | Raise       // the callback raised: the thread dies

  ghost predicate IsMin(heap: set<Entry>, e: Entry) {
    e in heap && forall x :: x in heap && x != e ==> Before(e, x)
  }

  ghost function Least(heap: set<Entry>): (e: Entry)
    requires exists x :: IsMin(heap, x)
    ensures IsMin(heap, e)
  {
    var e :| IsMin(heap, e);
    e
  }

  /** Schedulers are kept from the heap. */
  predicate HasLock(t: Thread) { t.Holding? || t.AboutToWait? }

  predicate Blocked(t: Thread) {
    (t.WaitForever? || t.WaitUntil?) && !t.notified
  }

  ghost predicate Enabled(s: State, a: Action) {
    match a
    case Tick(dt) => 0.0 <= dt
    case Prepare(_, _) => true
    case Push(scheduler) => scheduler in s.prepared && !HasLock(s.thread)
    case Close => !HasLock(s.thread)
    case Acquire => s.thread.Acquiring?
    case Turn => s.thread.Holding? && (s.stop || s.heap == {} || exists e :: IsMin(s.heap, e))
    case Block => s.thread.AboutToWait?
    case Wake =>
      || (s.thread.WaitForever? && s.thread.notified)
      || (s.thread.WaitUntil? && (s.thread.notified || s.thread.wake <= s.now))
    case Return => s.thread.Running?
    case Raise => s.thread.Running?
  }

  /** notify(): reaches the dispatcher only if it is waiting. */
  function Notify(t: Thread): Thread {
    match t
    case WaitForever(_) => WaitForever(true)
    case WaitUntil(wake, _, lag) => WaitUntil(wake, true, lag)
    case _ => t
  }

  ghost function TurnWith(s: State, e: Entry): State {
    var remaining := e.deadline - s.now;
    if remaining > 0.0 then s.(thread := AboutToWait(remaining, s.now))
    else s.(heap := s.heap - {e}, thread := Running(e), started := s.started + [Start(e, s.now, s.counter)])
  }

  ghost function Apply(s: State, a: Action): State
    requires Enabled(s, a)
  {
    match a
    case Tick(dt) => s.(now := s.now + dt)
    case Prepare(scheduler, delay) => s.(prepared := s.prepared[scheduler := s.now + if delay < 0.0 then 0.0 else delay])
    case Push(scheduler) =>
      var e := Entry(s.prepared[scheduler], s.counter);
      s.(heap := s.heap + {e}, counter := s.counter + 1, pushed := s.pushed + [e],
         thread := Notify(s.thread), prepared := s.prepared - {scheduler})
    case Close => s.(stop := true, thread := Notify(s.thread))
    case Acquire => s.(thread := Holding)
    case Turn =>
      if s.stop then s.(thread := Exited)
      else if s.heap == {} then s.(thread := WaitForever(false))
      else TurnWith(s, Least(s.heap))
    case Block => s.(thread := WaitUntil(s.now + s.thread.remaining, false, s.now - s.thread.read))
    case Wake => s.(thread := Acquiring)
    case Return => s.(thread := Acquiring)
    case Raise => s.(thread := Exited)
  }

  ghost function After(s: State, a: Action): State {
    if Enabled(s, a) then Apply(s, a) else s
  }

  ghost function Run(s: State, schedule: seq<Action>): State {
    if schedule == [] then s else After(Run(s, schedule[..|schedule| - 1]), schedule[|schedule| - 1])
  }

  // ----- the least entry -----

  lemma {:induction false} LeastExists(heap: set<Entry>) returns (e: Entry)
    requires heap != {}
    requires forall a, b :: a in heap && b in heap && a.seqNo == b.seqNo ==> a == b
    ensures IsMin(heap, e)
    decreases |heap|
  {
    var x :| x in heap;
    if heap == {x} {
      e := x;
    } else {
      var y := LeastExists(heap - {x});
      assert x.seqNo != y.seqNo;
      e := if Before(x, y) then x else y;
      forall z | z in heap && z != e
        ensures Before(e, z)
      {
        assert z == x || z in heap - {x};
      }
    }
  }

  // ----- invariant -----

  ghost function Entries(started: seq<Start>): set<Entry> { set x | x in started :: x.entry }
  ghost function AsSet(entries: seq<Entry>): set<Entry> { set e | e in entries }

  ghost predicate Numbered(entries: set<Entry>, pushed: seq<Entry>) {
    forall e :: e in entries ==> e.seqNo < |pushed| && pushed[e.seqNo] == e
  }

  /** What was pushed is the disjoint union of what is pending and what has been started, each once. */
  ghost predicate Accounted(s: State) {
    && |s.pushed| == s.counter
    && Numbered(AsSet(s.pushed), s.pushed)
    && s.heap + Entries(s.started) == AsSet(s.pushed)
    && s.heap !! Entries(s.started)
    && (forall i, j :: 0 <= i < j < |s.started| ==> s.started[i].entry != s.started[j].entry)
  }

  ghost predicate InFlightIsLast(s: State) {
    s.thread.Running? ==> s.started != [] && s.started[|s.started| - 1].entry == s.thread.entry
  }

  /** `deadline` is the earliest one pending. */
  ghost predicate Earliest(heap: set<Entry>, deadline: real) {
    && (exists e :: e in heap && e.deadline == deadline)
    && (forall e :: e in heap ==> deadline <= e.deadline)
  }

  /** A blocked, not yet notified thread has nothing to miss but its own lag: no stop request, and it will wake
      at the earliest deadline plus the lag. */
  ghost predicate SleepsSafely(s: State) {
    && (Blocked(s.thread) || s.thread.AboutToWait? ==> !s.stop)
    && (s.thread.AboutToWait? ==> s.thread.read <= s.now && 0.0 < s.thread.remaining && Earliest(s.heap, s.thread.read + s.thread.remaining))
    && (Blocked(s.thread) && s.thread.WaitForever? ==> s.heap == {})
    && (Blocked(s.thread) && s.thread.WaitUntil? ==> 0.0 <= s.thread.lag && Earliest(s.heap, s.thread.wake - s.thread.lag))
  }

  ghost predicate OnTime(s: State) {
    forall i :: 0 <= i < |s.started| ==> s.started[i].entry.deadline <= s.started[i].at <= s.now
  }

  /** An entry started earlier comes first in heap order, unless the other was scheduled only afterwards. */
  ghost predicate Ordered(s: State) {
    && (forall i :: 0 <= i < |s.started| ==> s.started[i].scheduled <= s.counter)
    && (forall i, j :: 0 <= i < j < |s.started| ==>
          Before(s.started[i].entry, s.started[j].entry) || s.started[i].scheduled <= s.started[j].entry.seqNo)
    && (forall i, e :: 0 <= i < |s.started| && e in s.heap ==>
          Before(s.started[i].entry, e) || s.started[i].scheduled <= e.seqNo)
  }

  ghost predicate Inv(s: State) {
    Accounted(s) && InFlightIsLast(s) && SleepsSafely(s) && OnTime(s) && Ordered(s)
  }

  lemma EntriesSnoc(started: seq<Start>, x: Start)
    ensures Entries(started + [x]) == Entries(started) + {x.entry}
  {
    assert forall y :: y in started + [x] <==> y in started || y == x;
  }

  lemma AsSetSnoc(entries: seq<Entry>, e: Entry)
    ensures AsSet(entries + [e]) == AsSet(entries) + {e}
  {
  }

  lemma PushAccounts(s: State, scheduler: nat)
    requires Accounted(s) && Enabled(s, Push(scheduler))
    ensures Accounted(Apply(s, Push(scheduler)))
  {
    var e := Entry(s.prepared[scheduler], s.counter);
    AsSetSnoc(s.pushed, e);
    assert e !in AsSet(s.pushed);
  }

  lemma PushKeeps(s: State, scheduler: nat)
    requires Inv(s) && Enabled(s, Push(scheduler))
    ensures Inv(Apply(s, Push(scheduler)))
  {
    PushAccounts(s, scheduler);
  }

  lemma PopAccounts(s: State, e: Entry)
    requires Accounted(s) && e in s.heap && e.deadline <= s.now
    ensures Accounted(TurnWith(s, e))
  {
    EntriesSnoc(s.started, Start(e, s.now, s.counter));
    forall i | 0 <= i < |s.started|
      ensures s.started[i].entry != e
    {
      assert s.started[i] in s.started;
      assert s.started[i].entry in Entries(s.started);
    }
  }

  lemma PopKeeps(s: State, e: Entry)
    requires Inv(s) && s.thread.Holding? && IsMin(s.heap, e) && e.deadline <= s.now
    ensures Inv(TurnWith(s, e))
  {
    PopAccounts(s, e);
    PopOrders(s, e);
  }

  lemma PopOrders(s: State, e: Entry)
    requires Accounted(s) && Ordered(s) && IsMin(s.heap, e) && e.deadline <= s.now
    ensures Ordered(TurnWith(s, e))
  {
  }

  lemma TurnKeeps(s: State)
    requires Inv(s) && Enabled(s, Turn)
    ensures Inv(Apply(s, Turn))
  {
    if !s.stop && s.heap != {} {
      var e := Least(s.heap);
      if e.deadline <= s.now {
        PopKeeps(s, e);
      }
    }
  }

  lemma ApplyKeeps(s: State, a: Action)
    requires Inv(s) && Enabled(s, a)
    ensures Inv(Apply(s, a))
  {
    match a
    case Push(scheduler) => PushKeeps(s, scheduler);
    case Turn => TurnKeeps(s);
    case Tick(_) => TickKeeps(s, a);
    case Prepare(_, _) =>
    case Close => WaitingKeeps(s, a);
    case Acquire => WaitingKeeps(s, a);
    case Block => WaitingKeeps(s, a);
    case Wake => WaitingKeeps(s, a);
    case Return => WaitingKeeps(s, a);
    case Raise => WaitingKeeps(s, a);
  }

  lemma TickKeeps(s: State, a: Action)
    requires Inv(s) && Enabled(s, a) && a.Tick?
    ensures Inv(Apply(s, a))
  {
  }

  /** These steps touch neither the pending entries nor what was started. */
  lemma WaitingKeeps(s: State, a: Action)
    requires Inv(s) && Enabled(s, a) && (a.Close? || a.Acquire? || a.Block? || a.Wake? || a.Return? || a.Raise?)
    ensures Inv(Apply(s, a))
  {
    assert SleepsSafely(Apply(s, a));
  }

  lemma {:induction false} RunKeeps(s: State, schedule: seq<Action>)
    requires Inv(s)
    ensures Inv(Run(s, schedule))
  {
    if schedule != [] {
      RunKeeps(s, schedule[..|schedule| - 1]);
      var t := Run(s, schedule[..|schedule| - 1]);
      if Enabled(t, schedule[|schedule| - 1]) {
        ApplyKeeps(t, schedule[|schedule| - 1]);
      }
    }
  }

  // ----- main results -----

  /** No due callback is slept past, under any interleaving of schedulers: a thread that is blocked and not
      notified faces an empty heap, or wakes at the earliest deadline plus the time that passed between its
      reading of the clock and the start of its wait; so exactly if none passed it wakes by that deadline. Once
      that time is up it may wake. A stop request is never slept through. */
  lemma {:induction false} NoDeadlineIsSleptPast(schedule: seq<Action>)
    ensures var s := Run(INIT, schedule);
            Blocked(s.thread) ==>
              && !s.stop
              && (s.thread.WaitForever? ==> s.heap == {})
              && (s.thread.WaitUntil? ==>
                    && s.heap != {} && 0.0 <= s.thread.lag
                    && ((forall e :: e in s.heap ==> s.thread.wake <= e.deadline) <==> s.thread.lag == 0.0))
              && ((exists e :: e in s.heap && e.deadline + Lag(s) <= s.now) ==> Enabled(s, Wake))
  {
    RunKeeps(INIT, schedule);
    var s := Run(INIT, schedule);
    if Blocked(s.thread) && s.thread.WaitUntil? {
      var e :| e in s.heap && e.deadline == s.thread.wake - s.thread.lag;
      assert forall x :: x in s.heap ==> e.deadline <= x.deadline;
    }
  }

  /** Time lost so far between reading the clock and starting to wait. */
  function Lag(s: State): real {
    match s.thread
    case AboutToWait(_, read) => s.now - read
    case WaitUntil(_, notified, lag) => if notified then 0.0 else lag
    case _ => 0.0
  }

  /** A dispatcher that is held up for `gap` before it starts to wait sleeps past the deadline by that much. */
  lemma SleptPastTrace(delay: real, gap: real) returns (schedule: seq<Action>, e: Entry)
    requires 0.0 < delay && 0.0 < gap
    ensures var s := Run(INIT, schedule);
            s.heap == {e} && s.thread == WaitUntil(e.deadline + gap, false, gap)
  {
    e := Entry(delay, 0);
    var pushed := PushedOne(delay);
    var s := Run(INIT, pushed);
    LeastIsUnique({e}, e);
    RunSnoc(INIT, pushed, Acquire);
    RunSnoc(INIT, pushed + [Acquire], Turn);
    RunSnoc(INIT, pushed + [Acquire] + [Turn], Tick(gap));
    RunSnoc(INIT, pushed + [Acquire] + [Turn] + [Tick(gap)], Block);
    schedule := pushed + [Acquire] + [Turn] + [Tick(gap)] + [Block];
  }

  lemma PushedOne(delay: real) returns (schedule: seq<Action>)
    requires 0.0 < delay
    ensures Run(INIT, schedule) == INIT.(heap := {Entry(delay, 0)}, counter := 1, pushed := [Entry(delay, 0)])
  {
    RunSnoc(INIT, [], Prepare(0, delay));
    RunSnoc(INIT, [] + [Prepare(0, delay)], Push(0));
    schedule := [] + [Prepare(0, delay)] + [Push(0)];
  }

  /** Exactly once: in every reachable state the scheduled callbacks are the disjoint union of those started
      and those pending; nothing is started twice or before its deadline; at most one is in flight and it
      is the last one started. */
  lemma {:induction false} DispatchedExactlyOnce(schedule: seq<Action>)
    ensures var s := Run(INIT, schedule);
            && AsSet(s.pushed) == Entries(s.started) + s.heap && Entries(s.started) !! s.heap
            && (forall i, j :: 0 <= i < j < |s.started| ==> s.started[i].entry != s.started[j].entry)
            && (forall i :: 0 <= i < |s.started| ==> s.started[i].entry.deadline <= s.started[i].at)
            && (s.thread.Running? ==> s.started != [] && s.started[|s.started| - 1].entry == s.thread.entry)
  {
    RunKeeps(INIT, schedule);
  }

  /** Starts follow heap order: an entry started earlier has the smaller deadline, or, at equal deadlines,
      was scheduled first, unless the other was scheduled only after it had started. */
  lemma {:induction false} StartsFollowHeapOrder(schedule: seq<Action>, i: nat, j: nat)
    requires i < j < |Run(INIT, schedule).started|
    ensures var s := Run(INIT, schedule);
            Before(s.started[i].entry, s.started[j].entry) || s.started[i].scheduled <= s.started[j].entry.seqNo
  {
    RunKeeps(INIT, schedule);
  }

  // ----- a pending callback can always be started -----

  lemma {:induction false} RunConcat(s: State, a: seq<Action>, b: seq<Action>)
    ensures Run(s, a + b) == Run(Run(s, a), b)
  {
    if b == [] {
      assert a + b == a;
    } else {
      RunConcat(s, a, b[..|b| - 1]);
      assert (a + b)[..|a + b| - 1] == a + b[..|b| - 1];
    }
  }

  lemma RunSnoc(s: State, a: seq<Action>, last: Action)
    ensures Run(s, a + [last]) == After(Run(s, a), last)
  {
    assert (a + [last])[..|a|] == a;
  }

  /** Only time and the dispatcher itself move. */
  ghost predicate Quiet(steps: seq<Action>) {
    forall i :: 0 <= i < |steps| ==> steps[i].Tick? || steps[i].Acquire? || steps[i].Turn? || steps[i].Block? || steps[i].Wake? || steps[i].Return?
  }

  /** To the top of the loop, or past it if the thread is there already; a timed wait runs to its end. */
  lemma ToAcquiring(s: State, deadline: real) returns (steps: seq<Action>, now: real)
    requires SleepsSafely(s) && !s.thread.Exited? && !s.thread.Holding? && Earliest(s.heap, deadline)
    ensures Quiet(steps)
    ensures Run(s, steps) == s.(now := now, thread := Acquiring)
    ensures s.now <= now && (now == s.now || now == deadline + Lag(s))
  {
    if Blocked(s.thread) || s.thread.AboutToWait? {
      SleepEnds(s, deadline);
    }
    now := s.now;
    match s.thread
    case Acquiring => steps := [];
    case Running(_) => steps := OneStep(s, Return);
    case WaitForever(_) => steps := OneStep(s, Wake);
    case AboutToWait(_, _) => steps, now := BlockToItsEnd(s);
    case WaitUntil(_, _, _) => steps, now := WaitToItsEnd(s);
  }

  lemma OneStep(s: State, a: Action) returns (steps: seq<Action>)
    requires Enabled(s, a) && (a.Return? || a.Wake?)
    ensures Quiet(steps) && Run(s, steps) == s.(thread := Acquiring)
  {
    RunSnoc(s, [], a);
    steps := [] + [a];
  }

  /** A timed wait ends at the earliest deadline plus the lag. */
  lemma SleepEnds(s: State, deadline: real)
    requires SleepsSafely(s) && Earliest(s.heap, deadline) && (Blocked(s.thread) || s.thread.AboutToWait?)
    ensures !s.thread.WaitForever?
    ensures s.thread.WaitUntil? ==> s.thread.wake == deadline + Lag(s)
    ensures s.thread.AboutToWait? ==> 0.0 < s.thread.remaining && s.now + s.thread.remaining == deadline + Lag(s)
  {
  }

  lemma WaitToItsEnd(s: State) returns (steps: seq<Action>, now: real)
    requires s.thread.WaitUntil?
    ensures Quiet(steps)
    ensures now == if !s.thread.notified && s.now < s.thread.wake then s.thread.wake else s.now
    ensures Run(s, steps) == s.(now := now, thread := Acquiring)
  {
    now := if !s.thread.notified && s.now < s.thread.wake then s.thread.wake else s.now;
    TickTo(s, now);
    var last := OneStep(s.(now := now), Wake);
    RunConcat(s, [Tick(now - s.now)], last);
    steps := [Tick(now - s.now)] + last;
  }

  lemma TickTo(s: State, now: real)
    requires s.now <= now
    ensures Run(s, [Tick(now - s.now)]) == s.(now := now)
  {
    assert [Tick(now - s.now)][..0] == [];
  }

  lemma BlockToItsEnd(s: State) returns (steps: seq<Action>, now: real)
    requires s.thread.AboutToWait? && 0.0 < s.thread.remaining
    ensures Quiet(steps)
    ensures now == s.now + s.thread.remaining
    ensures Run(s, steps) == s.(now := now, thread := Acquiring)
  {
    var wait := After(s, Block);
    RunSnoc(s, [], Block);
    var rest;
    rest, now := WaitToItsEnd(wait);
    RunConcat(s, [] + [Block], rest);
    steps := [] + [Block] + rest;
  }

  function Later(a: real, b: real): real { if a < b then b else a }

  lemma FromHolding(s: State, e: Entry) returns (steps: seq<Action>)
    requires s.thread.Holding? && !s.stop && IsMin(s.heap, e)
    ensures Quiet(steps)
    ensures Run(s, steps) == TurnWith(s.(now := Later(s.now, e.deadline)), e)
  {
    var t := Later(s.now, e.deadline);
    LeastIsUnique(s.heap, e);
    TickTo(s, t);
    RunSnoc(s, [Tick(t - s.now)], Turn);
    steps := [Tick(t - s.now)] + [Turn];
  }

  /** From wherever the thread is to the top of the loop. */
  lemma ToHolding(s: State, deadline: real) returns (steps: seq<Action>, now: real)
    requires SleepsSafely(s) && !s.thread.Exited? && Earliest(s.heap, deadline)
    ensures Quiet(steps)
    ensures Run(s, steps) == s.(now := now, thread := Holding)
    ensures s.now <= now && (now == s.now || now == deadline + Lag(s))
  {
    if s.thread.Holding? {
      steps, now := [], s.now;
    } else {
      var first;
      first, now := ToAcquiring(s, deadline);
      RunSnoc(s, first, Acquire);
      steps := first + [Acquire];
    }
  }

  lemma LeastIsUnique(heap: set<Entry>, e: Entry)
    requires IsMin(heap, e)
    ensures Least(heap) == e
  {
  }

  /** No lost wake-up: from every reachable state in which the dispatcher has not stopped, time and the
      dispatcher alone suffice to start the earliest pending callback, at its deadline or, if that has passed,
      at once; a thread that lost time before its wait may be late by that much. */
  lemma {:induction false} EarliestCanStart(schedule: seq<Action>) returns (steps: seq<Action>, e: Entry, at: real)
    requires var s := Run(INIT, schedule);
             s.heap != {} && !s.stop && !s.thread.Exited?
    ensures Quiet(steps) && IsMin(Run(INIT, schedule).heap, e)
    ensures var s := Run(INIT, schedule);
            Later(s.now, e.deadline) <= at <= Later(s.now, e.deadline + Lag(s))
    ensures var s, t := Run(INIT, schedule), Run(INIT, schedule + steps);
            t.thread == Running(e) && t.started == s.started + [Start(e, at, s.counter)]
  {
    e := LeastPending(schedule);
    steps, at := StartLeast(Run(INIT, schedule), e);
    RunConcat(INIT, schedule, steps);
  }

  lemma {:induction false} LeastPending(schedule: seq<Action>) returns (e: Entry)
    requires Run(INIT, schedule).heap != {}
    ensures IsMin(Run(INIT, schedule).heap, e) && SleepsSafely(Run(INIT, schedule))
  {
    RunKeeps(INIT, schedule);
    NoTies(Run(INIT, schedule));
    e := LeastExists(Run(INIT, schedule).heap);
  }

  lemma NoTies(s: State)
    requires Accounted(s)
    ensures forall a, b :: a in s.heap && b in s.heap && a.seqNo == b.seqNo ==> a == b
  {
    assert s.heap <= AsSet(s.pushed);
  }

  lemma StartLeast(s: State, e: Entry) returns (steps: seq<Action>, at: real)
    requires SleepsSafely(s) && !s.thread.Exited? && !s.stop && IsMin(s.heap, e)
    ensures Quiet(steps)
    ensures Later(s.now, e.deadline) <= at <= Later(s.now, e.deadline + Lag(s))
    ensures Run(s, steps).thread == Running(e) && Run(s, steps).started == s.started + [Start(e, at, s.counter)]
  {
    assert Earliest(s.heap, e.deadline);
    var first, now := ToHolding(s, e.deadline);
    at := Later(now, e.deadline);
    var second := FromHolding(s.(now := now, thread := Holding), e);
    RunConcat(s, first, second);
    steps := first + second;
  }

  /** A callback that raises ends the dispatcher: nothing that is pending or scheduled later is ever started. */
  lemma {:induction false} RaiseEndsDispatch(s: State, more: seq<Action>)
    requires Enabled(s, Raise)
    ensures var t := Run(Apply(s, Raise), more); t.thread == Exited && t.started == s.started
  {
    if more != [] {
      RaiseEndsDispatch(s, more[..|more| - 1]);
    }
  }

  // ----- one scheduling thread, constant delay -----

  /** Only scheduler 0 schedules, always with the same delay. */
  ghost predicate Constant(schedule: seq<Action>, delay: real) {
    forall i :: 0 <= i < |schedule| && schedule[i].Prepare? ==> schedule[i].scheduler == 0 && schedule[i].delay == delay
  }

  ghost predicate Fifo(s: State, delay: real) {
    var d := if delay < 0.0 then 0.0 else delay;
    && |s.pushed| == s.counter && |s.started| <= s.counter
    && (forall i :: 0 <= i < |s.pushed| ==> s.pushed[i].seqNo == i && s.pushed[i].deadline <= s.now + d)
    && (forall i, j :: 0 <= i < j < |s.pushed| ==> s.pushed[i].deadline <= s.pushed[j].deadline)
    && (forall c :: c in s.prepared ==> c == 0 && s.prepared[c] <= s.now + d)
    && (forall c, i :: c in s.prepared && 0 <= i < |s.pushed| ==> s.pushed[i].deadline <= s.prepared[c])
    && (forall i :: 0 <= i < |s.started| ==> s.started[i].entry == s.pushed[i])
    && (forall e :: e in s.heap <==> |s.started| <= e.seqNo < |s.pushed| && s.pushed[e.seqNo] == e)
  }

  lemma FifoPop(s: State, delay: real)
    requires Fifo(s, delay) && exists e :: IsMin(s.heap, e)
    ensures |s.started| < |s.pushed| && Least(s.heap) == s.pushed[|s.started|]
  {
    var k := |s.started|;
    var e := Least(s.heap);
    assert s.pushed[k].seqNo == k;
    assert s.pushed[k] in s.heap;
    assert e == s.pushed[k] || Before(e, s.pushed[k]);
    assert k < e.seqNo ==> s.pushed[k].deadline <= s.pushed[e.seqNo].deadline;
  }

  lemma FifoStart(s: State, delay: real, e: Entry)
    requires Fifo(s, delay) && |s.started| < |s.pushed| && e == s.pushed[|s.started|]
    ensures Fifo(TurnWith(s, e), delay)
  {
    assert e.seqNo == |s.started|;
  }

  lemma FifoTurn(s: State, delay: real)
    requires Fifo(s, delay) && Enabled(s, Turn)
    ensures Fifo(Apply(s, Turn), delay)
  {
    if !s.stop && s.heap != {} {
      FifoPop(s, delay);
      FifoStart(s, delay, Least(s.heap));
    }
  }

  lemma FifoPush(s: State, delay: real)
    requires Fifo(s, delay) && Enabled(s, Push(0))
    ensures Fifo(Apply(s, Push(0)), delay)
  {
    var t := Apply(s, Push(0));
    assert forall i :: 0 <= i < |s.pushed| ==> t.pushed[i] == s.pushed[i];
    assert t.pushed[|s.pushed|] == Entry(s.prepared[0], s.counter);
  }

  lemma FifoKeeps(s: State, a: Action, delay: real)
    requires Fifo(s, delay) && Enabled(s, a)
    requires a.Prepare? ==> a.scheduler == 0 && a.delay == delay
    ensures Fifo(Apply(s, a), delay)
  {
    match a
    case Turn => FifoTurn(s, delay);
    case Push(scheduler) =>
      assert scheduler == 0;
      FifoPush(s, delay);
    case _ =>
  }

  /** With one scheduling thread, a constant delay and a monotone clock, callbacks start in exactly the
      order in which they were scheduled: the started ones are a prefix of the scheduled ones. */
  lemma {:induction false} ConstantDelayIsFifo(schedule: seq<Action>, delay: real)
    requires Constant(schedule, delay)
    ensures Fifo(Run(INIT, schedule), delay)
    ensures var s := Run(INIT, schedule);
            |s.started| <= |s.pushed| && forall i :: 0 <= i < |s.started| ==> s.started[i].entry == s.pushed[i]
  {
    if schedule != [] {
      ConstantDelayIsFifo(schedule[..|schedule| - 1], delay);
      var t := Run(INIT, schedule[..|schedule| - 1]);
      if Enabled(t, schedule[|schedule| - 1]) {
        FifoKeeps(t, schedule[|schedule| - 1], delay);
      }
    }
  }
}
