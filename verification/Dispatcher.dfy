/** The dispatcher object: what its methods do while they hold the lock, each one step of the protocol. */
module Dispatcher {
  import opened DelayQueue
  import opened BinaryHeap

  /** What one turn of the loop does when it gives up the lock. */
  datatype Decision = Leave | AwaitNotify | AwaitTimeout(remaining: real) | Call(entry: Entry)

  /** The fields are those of the protocol state; the list is a binary heap that holds the pending entries,
      each once. */
  ghost predicate Represents(heap: seq<Entry>, counter: nat, stop: bool, view: State) {
    && multiset(heap) == multiset(view.heap) && IsHeap(heap)
    && counter == view.counter && stop == view.stop
  }

  class DelayedDispatcher {
    var heap: seq<Entry>
    var counter: nat
    var stop: bool
    ghost var trace: seq<Action>  // the run this object is part of

    ghost function View(): State
      reads this
    {
      Run(INIT, trace)
    }

    ghost predicate Valid()
      reads this
    {
      Represents(heap, counter, stop, View())
    }

    constructor ()
      ensures Valid() && trace == []
    {
      heap, counter, stop, trace := [], 0, false, [];
    }

    /** Time passes, or a thread takes a step that touches none of the fields. */
    ghost method Elsewhere(a: Action)
      requires Valid() && !a.Push? && !a.Turn? && !a.Close?
      modifies this
      ensures Valid() && trace == old(trace) + [a]
    {
      RunSnoc(INIT, trace, a);
      LeavesFields(View(), a);
      trace := trace + [a];
    }

    /** `schedule` by one thread while no other takes the lock: the run time is computed from the clock alone,
        before the lock; a negative delay counts as none. */
    method Schedule(delay: real, now: real, ghost scheduler: nat)
      requires Valid() && View().now == now && !HasLock(View().thread)
      modifies this
      ensures Valid() && trace == old(trace) + [Prepare(scheduler, delay)] + [DelayQueue.Push(scheduler)]
      ensures View().pushed == old(View()).pushed + [Entry(now + (if delay < 0.0 then 0.0 else delay), old(View()).counter)]
    {
      var runAt := now + if delay < 0.0 then 0.0 else delay;
      RunSnoc(INIT, trace, Prepare(scheduler, delay));
      Elsewhere(Prepare(scheduler, delay));
      RunSnoc(INIT, trace, DelayQueue.Push(scheduler));
      Push(runAt, scheduler);
    }

    /** The part under the lock: push the entry and notify. */
    method Push(runAt: real, ghost scheduler: nat)
      requires Valid() && Enabled(View(), DelayQueue.Push(scheduler)) && View().prepared[scheduler] == runAt
      modifies this
      ensures Valid() && trace == old(trace) + [DelayQueue.Push(scheduler)]
    {
      var longer := HeapPush(heap, Entry(runAt, counter));
      PushRepresents(heap, longer, counter, stop, trace, scheduler);
      heap := longer;
      counter := counter + 1;
      trace := trace + [DelayQueue.Push(scheduler)];
    }

    /** One turn of the loop, with the clock reading `now`. */
    method Turn(now: real) returns (d: Decision)
      requires Valid() && View().thread.Holding? && View().now == now
      modifies this
      ensures Valid() && trace == old(trace) + [DelayQueue.Turn]
      ensures d.Leave? ==> View().thread == Exited
      ensures d.AwaitNotify? ==> View().thread == WaitForever(false)
      ensures d.AwaitTimeout? ==> 0.0 < d.remaining && View().thread == AboutToWait(d.remaining, now)
      ensures d.Call? ==> View().thread == Running(d.entry) && d.entry.deadline <= now && IsMin(old(View()).heap, d.entry)
    {
      TurnRepresents(heap, counter, stop, trace);
      if stop {
        trace := trace + [DelayQueue.Turn];
        return Leave;
      }
      if heap == [] {
        trace := trace + [DelayQueue.Turn];
        return AwaitNotify;
      }
      var e := heap[0];
      var remaining := e.deadline - now;
      if remaining > 0.0 {
        trace := trace + [DelayQueue.Turn];
        return AwaitTimeout(remaining);
      }
      var shorter;
      e, shorter := HeapPop(heap);
      PopRepresents(heap, shorter, counter, stop, trace);
      heap := shorter;
      trace := trace + [DelayQueue.Turn];
      return Call(e);
    }

    method Close()
      requires Valid() && !HasLock(View().thread)
      modifies this
      ensures Valid() && trace == old(trace) + [DelayQueue.Close] && View().stop
    {
      stop := true;
      RunSnoc(INIT, trace, DelayQueue.Close);
      trace := trace + [DelayQueue.Close];
    }
  }

  lemma LeavesFields(s: State, a: Action)
    requires !a.Push? && !a.Turn? && !a.Close?
    ensures var t := After(s, a);
            t.heap == s.heap && t.counter == s.counter && t.stop == s.stop
  {
  }

  lemma SameElements(heap: seq<Entry>, entries: set<Entry>)
    requires multiset(heap) == multiset(entries)
    ensures AsSet(heap) == entries && (heap == [] <==> entries == {})
  {
    assert forall x :: x in heap <==> x in multiset(heap);
    assert forall x :: x in entries <==> x in multiset(entries);
    assert heap != [] ==> heap[0] in AsSet(heap);
  }

  /** A new entry differs from every pending one. */
  lemma NextIsNew(trace: seq<Action>, deadline: real)
    ensures Entry(deadline, Run(INIT, trace).counter) !in Run(INIT, trace).heap
  {
    RunKeeps(INIT, trace);
    var s := Run(INIT, trace);
    assert s.heap <= AsSet(s.pushed);
  }

  lemma OneMore(entries: set<Entry>, e: Entry)
    ensures e !in entries ==> multiset(entries + {e}) == multiset(entries) + multiset{e}
    ensures e in entries ==> multiset(entries - {e}) == multiset(entries) - multiset{e}
  {
  }

  lemma PushRepresents(heap: seq<Entry>, longer: seq<Entry>, counter: nat, stop: bool, trace: seq<Action>, scheduler: nat)
    requires Represents(heap, counter, stop, Run(INIT, trace)) && Enabled(Run(INIT, trace), Push(scheduler))
    requires IsHeap(longer)
    requires multiset(longer) == multiset(heap) + multiset{Entry(Run(INIT, trace).prepared[scheduler], counter)}
    ensures Represents(longer, counter + 1, stop, Run(INIT, trace + [Push(scheduler)]))
  {
    var view := Run(INIT, trace);
    NextIsNew(trace, view.prepared[scheduler]);
    OneMore(view.heap, Entry(view.prepared[scheduler], counter));
    RunSnoc(INIT, trace, Push(scheduler));
  }

  lemma TurnIsEnabled(heap: seq<Entry>, counter: nat, stop: bool, view: State)
    requires Represents(heap, counter, stop, view) && view.thread.Holding?
    ensures heap == [] <==> view.heap == {}
    ensures heap != [] ==> IsMin(view.heap, heap[0]) && Least(view.heap) == heap[0]
    ensures Enabled(view, Turn)
  {
    SameElements(heap, view.heap);
    if heap != [] {
      HeadIsLeast(heap);
      LeastIsUnique(view.heap, heap[0]);
    }
  }

  /** The turn is possible, and unless it starts a callback it leaves the list as it is. */
  lemma TurnRepresents(heap: seq<Entry>, counter: nat, stop: bool, trace: seq<Action>)
    requires Represents(heap, counter, stop, Run(INIT, trace)) && Run(INIT, trace).thread.Holding?
    ensures var view, next := Run(INIT, trace), Run(INIT, trace + [Turn]);
            && (stop ==> next == view.(thread := Exited))
            && (!stop && heap == [] ==> next == view.(thread := WaitForever(false)))
            && (!stop && heap != [] ==> next == TurnWith(view, heap[0]) && IsMin(view.heap, heap[0]))
  {
    TurnIsEnabled(heap, counter, stop, Run(INIT, trace));
    RunSnoc(INIT, trace, Turn);
  }

  lemma PopRepresents(heap: seq<Entry>, shorter: seq<Entry>, counter: nat, stop: bool, trace: seq<Action>)
    requires Represents(heap, counter, stop, Run(INIT, trace)) && Run(INIT, trace).thread.Holding? && !stop
    requires heap != [] && heap[0].deadline <= Run(INIT, trace).now
    requires IsHeap(shorter) && multiset(shorter) == multiset(heap) - multiset{heap[0]}
    ensures Represents(shorter, counter, stop, Run(INIT, trace + [Turn]))
  {
    TurnRepresents(heap, counter, stop, trace);
    OneMore(Run(INIT, trace).heap, heap[0]);
  }
}
