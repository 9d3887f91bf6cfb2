/**
 What each counter of the in-memory driver shows, on its own, and in which order its queue is served.

 `active` is meant to count the immediate jobs and `delayed` the others.  A requeue discounts by the new
 delay what was counted by the old one, so the two drift apart by each requeue that changes the kind of a job.
 */
module MemoryCounters {
  import Sets
  import opened MemoryQueue

  /** The jobs held that have no delay, or those that have one. */
  function HeldOf(items: map<nat, Item>, immediate: bool): set<nat>
  {
    set h | h in items && Holds(items[h], immediate)
  }

  predicate Holds(x: Item, immediate: bool)
  {
    IsHeld(x.place) && (x.delay <= 0 <==> immediate)
  }

  lemma HeldOfPut(items: map<nat, Item>, h: nat, x: Item, immediate: bool)
    ensures |HeldOf(items[h := x], immediate)| ==
            |HeldOf(items, immediate)| - One(h in items && Holds(items[h], immediate)) + One(Holds(x, immediate))
  {
    HeldOfSet(items, h, x, immediate);
    Sets.ReplaceSize(HeldOf(items, immediate), h, Holds(x, immediate));
  }

  lemma HeldOfSet(items: map<nat, Item>, h: nat, x: Item, immediate: bool)
    ensures HeldOf(items[h := x], immediate) ==
            (HeldOf(items, immediate) - {h}) + if Holds(x, immediate) then {h} else {}
    ensures h in HeldOf(items, immediate) <==> h in items && Holds(items[h], immediate)
  {
  }

  lemma HeldOfDrop(items: map<nat, Item>, h: nat, immediate: bool)
    requires h in items
    ensures |HeldOf(items - {h}, immediate)| == |HeldOf(items, immediate)| - One(Holds(items[h], immediate))
  {
    assert HeldOf(items - {h}, immediate) == HeldOf(items, immediate) - {h};
  }

  lemma BothKinds(items: map<nat, Item>)
    ensures |Held(items)| == |HeldOf(items, true)| + |HeldOf(items, false)|
  {
    assert Held(items) == HeldOf(items, true) + HeldOf(items, false);
    assert HeldOf(items, true) !! HeldOf(items, false);
  }

  /** Only immediate jobs are pushed into the queue by their pusher, and only delayed ones have a goroutine. */
  predicate PlacedByDelay(x: Item)
  {
    && (x.place.Blocked? ==> x.delay <= 0)
    && (x.place.Spawned? || x.place.Counted? || x.place.Sleeping? || x.place.Refused? ==> x.delay > 0)
  }

  ghost predicate Placed(items: map<nat, Item>)
  {
    forall h | h in items :: PlacedByDelay(items[h])
  }

  lemma PlacedStep(s: State, a: Step)
    requires Placed(s.items) && Enabled(s, a)
    ensures Placed(Next(s, a).items)
  {
  }

  // What a step adds

  /** A requeue changes the kind of the job from immediate to delayed (1), back (-1), or not (0). */
  function DriftBy(s: State, a: Step): int
    requires Enabled(s, a)
  {
    if a.Requeue? && s.items[a.h].delay <= 0 < a.delay then 1
    else if a.Requeue? && a.delay <= 0 < s.items[a.h].delay then -1
    else 0
  }

  /** The step responds to a job of this kind. */
  predicate Responds(s: State, a: Step, immediate: bool)
    requires Enabled(s, a)
  {
    a.Respond? && (s.items[a.h].delay <= 0 <==> immediate)
  }

  /** What the counters show beyond the jobs held and the totals. */
  function ActiveRest(s: State): int
  {
    s.active - |HeldOf(s.items, true)| - s.timedOut
  }

  function DelayedRest(s: State): int
  {
    s.delayed - |HeldOf(s.items, false)| - s.dropped + s.lateAcks
  }

  /** The step moves what is left over by the jobs responded to and the drift. */
  ghost predicate Moves(s: State, a: Step)
    requires Enabled(s, a)
  {
    && ActiveRest(Next(s, a)) == ActiveRest(s) + One(Responds(s, a, true)) + DriftBy(s, a)
    && DelayedRest(Next(s, a)) == DelayedRest(s) + One(Responds(s, a, false)) - DriftBy(s, a)
  }

  lemma BothPut(items: map<nat, Item>, h: nat, x: Item)
    ensures forall immediate ::
              |HeldOf(items[h := x], immediate)| ==
              |HeldOf(items, immediate)| - One(h in items && Holds(items[h], immediate)) + One(Holds(x, immediate))
  {
    HeldOfPut(items, h, x, true);
    HeldOfPut(items, h, x, false);
  }

  lemma BothDrop(items: map<nat, Item>, h: nat)
    requires h in items
    ensures forall immediate ::
              |HeldOf(items - {h}, immediate)| == |HeldOf(items, immediate)| - One(Holds(items[h], immediate))
  {
    HeldOfDrop(items, h, true);
    HeldOfDrop(items, h, false);
  }

  lemma HandledMoves(s: State, a: Step)
    requires Enabled(s, a) && Placed(s.items) && (a.Push? || a.Rehandle?)
    ensures Moves(s, a)
  {
    var delay := if a.Push? then a.delay else s.items[a.h].delay;
    var p := if delay <= 0 then Blocked(a.Rehandle?) else if s.goroutines >= GOROUTINES_MAX then Refused else Spawned;
    BothPut(s.items, a.h, Item(p, delay));
  }

  lemma AdvanceMoves(s: State, a: Step)
    requires Enabled(s, a) && Placed(s.items) && (a.Enqueue? || a.CountGoroutine? || a.CountDelayed?)
    ensures Moves(s, a)
  {
    var p := if a.Enqueue? then Queued else if a.CountGoroutine? then Counted else Sleeping;
    BothPut(s.items, a.h, s.items[a.h].(place := p));
  }

  lemma RemovalMoves(s: State, a: Step)
    requires Enabled(s, a) && Placed(s.items) && (a.TimeOut? || a.Settle? || a.Respond?)
    ensures Moves(s, a)
  {
    BothDrop(s.items, a.h);
  }

  lemma WakeUpMoves(s: State, a: Step)
    requires Enabled(s, a) && Placed(s.items) && a.WakeUp?
    ensures Moves(s, a)
  {
    if |s.queue| < s.capacity {
      BothPut(s.items, a.h, s.items[a.h].(place := Queued));
    } else {
      BothDrop(s.items, a.h);
    }
  }

  lemma ConsumeMoves(s: State)
    requires Enabled(s, Consume) && Matches(s.items, s.queue)
    ensures Moves(s, Consume)
  {
    var h := s.queue[0];
    assert IsQueued(s.items, h);
    BothPut(s.items, h, s.items[h].(place := Out));
  }

  lemma RequeueMoves(s: State, a: Step)
    requires Enabled(s, a) && a.Requeue?
    ensures Moves(s, a)
  {
    BothPut(s.items, a.h, Item(Returning, a.delay));
  }

  lemma StepMoves(s: State, a: Step)
    requires Enabled(s, a) && Placed(s.items) && Matches(s.items, s.queue)
    ensures Moves(s, a)
  {
    if a.Push? || a.Rehandle? {
      HandledMoves(s, a);
    } else if a.Enqueue? || a.CountGoroutine? || a.CountDelayed? {
      AdvanceMoves(s, a);
    } else if a.TimeOut? || a.Settle? || a.Respond? {
      RemovalMoves(s, a);
    } else if a.WakeUp? {
      WakeUpMoves(s, a);
    } else if a.Consume? {
      ConsumeMoves(s);
    } else if a.Requeue? {
      RequeueMoves(s, a);
    }
  }

  // Whole runs

  /** Requeues so far that made an immediate job delayed, less those that did the opposite. */
  ghost function Drift(ss: seq<State>, steps: seq<Step>, n: nat): int
    requires Run(ss, steps) && n <= |steps|
  {
    if n == 0 then 0
    else
      assert Follows(ss, steps, n - 1);
      Drift(ss, steps, n - 1) + DriftBy(ss[n - 1], steps[n - 1])
  }

  /** Jobs of a kind that were only responded to so far. */
  ghost function RespondedTo(ss: seq<State>, steps: seq<Step>, n: nat, immediate: bool): nat
    requires Run(ss, steps) && n <= |steps|
  {
    if n == 0 then 0
    else
      assert Follows(ss, steps, n - 1);
      RespondedTo(ss, steps, n - 1, immediate) + One(Responds(ss[n - 1], steps[n - 1], immediate))
  }

  lemma {:induction false} AlwaysPlaced(ss: seq<State>, steps: seq<Step>, n: nat)
    requires Run(ss, steps) && n <= |steps|
    ensures Placed(ss[n].items)
    decreases n
  {
    if n > 0 {
      AlwaysPlaced(ss, steps, n - 1);
      assert Follows(ss, steps, n - 1);
      PlacedStep(ss[n - 1], steps[n - 1]);
    }
  }

  lemma {:induction false} RestsAddUp(ss: seq<State>, steps: seq<Step>, n: nat)
    requires Run(ss, steps) && n <= |steps|
    ensures ActiveRest(ss[n]) == RespondedTo(ss, steps, n, true) + Drift(ss, steps, n)
    ensures DelayedRest(ss[n]) == RespondedTo(ss, steps, n, false) - Drift(ss, steps, n)
    decreases n
  {
    if n == 0 {
      assert HeldOf(ss[0].items, true) == {} && HeldOf(ss[0].items, false) == {};
    } else {
      RestsAddUp(ss, steps, n - 1);
      assert Follows(ss, steps, n - 1);
      AlwaysPlaced(ss, steps, n - 1);
      Conservation(ss, steps, n - 1);
      StepMoves(ss[n - 1], steps[n - 1]);
    }
  }

  /**
   Each counter in every reachable state.  `active` is the immediate jobs held, the pushes that timed out
   and the immediate jobs only responded to, with the drift; `delayed` is the delayed jobs held, those
   dropped on waking up and those only responded to, less the late acknowledgements and the drift.
   */
  lemma EachCounter(ss: seq<State>, steps: seq<Step>, n: nat)
    requires Run(ss, steps) && n <= |steps|
    ensures ss[n].active ==
            |HeldOf(ss[n].items, true)| + ss[n].timedOut + RespondedTo(ss, steps, n, true) + Drift(ss, steps, n)
    ensures ss[n].delayed ==
            |HeldOf(ss[n].items, false)| + ss[n].dropped + RespondedTo(ss, steps, n, false)
            - ss[n].lateAcks - Drift(ss, steps, n)
    ensures |Held(ss[n].items)| == |HeldOf(ss[n].items, true)| + |HeldOf(ss[n].items, false)|
  {
    RestsAddUp(ss, steps, n);
    BothKinds(ss[n].items);
  }

  /** A requeue turns an immediate job into a delayed one, or the other way. */
  predicate ChangesKind(s: State, a: Step)
  {
    a.Requeue? && a.h in s.items && (s.items[a.h].delay <= 0) != (a.delay <= 0)
  }

  lemma {:induction false} NoDriftWithoutChange(ss: seq<State>, steps: seq<Step>, n: nat)
    requires Run(ss, steps) && n <= |steps|
    requires forall m | 0 <= m < n :: !ChangesKind(ss[m], steps[m])
    ensures Drift(ss, steps, n) == 0
    decreases n
  {
    if n > 0 {
      NoDriftWithoutChange(ss, steps, n - 1);
      assert Follows(ss, steps, n - 1);
      assert !ChangesKind(ss[n - 1], steps[n - 1]);
    }
  }

  /**
   Where no requeue has changed the kind of a job, no push has timed out, nothing was dropped, only responded
   to or refused, the counters are exactly the immediate and the delayed jobs the driver holds.
   */
  lemma CountersAreTheJobs(ss: seq<State>, steps: seq<Step>, n: nat)
    requires Run(ss, steps) && n <= |steps|
    requires forall m | 0 <= m < n :: !ChangesKind(ss[m], steps[m]) && !steps[m].Respond?
    requires ss[n].timedOut == 0 && ss[n].dropped == 0 && ss[n].lateAcks == 0
    ensures ss[n].active == |HeldOf(ss[n].items, true)| && ss[n].delayed == |HeldOf(ss[n].items, false)|
  {
    EachCounter(ss, steps, n);
    NoDriftWithoutChange(ss, steps, n);
    NothingResponded(ss, steps, n);
  }

  lemma {:induction false} NothingResponded(ss: seq<State>, steps: seq<Step>, n: nat)
    requires Run(ss, steps) && n <= |steps| && forall m | 0 <= m < n :: !steps[m].Respond?
    ensures RespondedTo(ss, steps, n, true) == 0 && RespondedTo(ss, steps, n, false) == 0
    decreases n
  {
    if n > 0 {
      NothingResponded(ss, steps, n - 1);
    }
  }

  lemma LeadsMore(s: State, more: seq<Step>, mid: State, a: Step, last: State)
    requires Leads(s, more, mid) && Enabled(mid, a) && Next(mid, a) == last
    ensures Leads(s, more + [a], last)
  {
    LeadsOne(mid, a);
    LeadsOn(s, more, mid, [a], last);
  }

  /** One job, and nothing else. */
  function Alone(capacity: nat, x: Item, active: int, delayed: int, goroutines: int): State
  {
    Empty(capacity).(listening := true, active := active, delayed := delayed, goroutines := goroutines,
                     items := map[0 := x])
  }

  lemma TakenAlone(capacity: nat) returns (steps: seq<Step>)
    requires capacity > 0
    ensures steps == [Push(0, 0), Enqueue(0), Resume, Consume]
    ensures Leads(Empty(capacity), steps, Alone(capacity, Item(Out, 0), 1, 0, 0))
  {
    var s := Empty(capacity);
    var s1 := s.(active := 1, items := map[0 := Item(Blocked(false), 0)]);
    LeadsOne(s, Push(0, 0));
    var s2 := s1.(items := map[0 := Item(Queued, 0)], queue := [0]);
    LeadsMore(s, [Push(0, 0)], s1, Enqueue(0), s2);
    var s3 := s2.(listening := true);
    LeadsMore(s, [Push(0, 0), Enqueue(0)], s2, Resume, s3);
    LeadsMore(s, [Push(0, 0), Enqueue(0), Resume], s3, Consume, Alone(capacity, Item(Out, 0), 1, 0, 0));
    steps := [Push(0, 0), Enqueue(0), Resume] + [Consume];
  }

  /**
   An immediate job is requeued with a delay: while it sleeps, the only job there is, `active` shows
   one and `delayed` none.
   */
  lemma DriftHappens(capacity: nat) returns (steps: seq<Step>)
    requires capacity > 0
    ensures steps == [Push(0, 0), Enqueue(0), Resume, Consume] +
                     [Requeue(0, 5), Rehandle(0), CountGoroutine(0), CountDelayed(0)]
    ensures Leads(Empty(capacity), steps, Alone(capacity, Item(Sleeping, 5), 1, 0, 1))
  {
    var s, c := Empty(capacity), capacity;
    var taken := TakenAlone(capacity);
    LeadsMore(s, taken, Alone(c, Item(Out, 0), 1, 0, 0), Requeue(0, 5), Alone(c, Item(Returning, 5), 1, -1, 0));
    steps := taken + [Requeue(0, 5)];
    LeadsMore(s, steps, Alone(c, Item(Returning, 5), 1, -1, 0), Rehandle(0), Alone(c, Item(Spawned, 5), 1, -1, 0));
    steps := steps + [Rehandle(0)];
    LeadsMore(s, steps, Alone(c, Item(Spawned, 5), 1, -1, 0), CountGoroutine(0), Alone(c, Item(Counted, 5), 1, -1, 1));
    steps := steps + [CountGoroutine(0)];
    LeadsMore(s, steps, Alone(c, Item(Counted, 5), 1, -1, 1), CountDelayed(0), Alone(c, Item(Sleeping, 5), 1, 0, 1));
    steps := steps + [CountDelayed(0)];
  }

  // The queue

  /** The jobs that have entered the queue so far, by their pusher or on waking up, in order. */
  ghost function Entered(ss: seq<State>, steps: seq<Step>, n: nat): seq<nat>
    requires |ss| == |steps| + 1 && n <= |steps|
  {
    if n == 0 then []
    else
      var s, a := ss[n - 1], steps[n - 1];
      Entered(ss, steps, n - 1) + if a.Enqueue? || (a.WakeUp? && |s.queue| < s.capacity) then [a.h] else []
  }

  /** The jobs that have been taken out of it, in order. */
  ghost function Served(ss: seq<State>, steps: seq<Step>, n: nat): seq<nat>
    requires |ss| == |steps| + 1 && n <= |steps|
  {
    if n == 0 then []
    else
      var s, a := ss[n - 1], steps[n - 1];
      Served(ss, steps, n - 1) + if a.Consume? && s.queue != [] then [s.queue[0]] else []
  }

  lemma QueueStep(s: State, a: Step)
    requires Enabled(s, a) && Matches(s.items, s.queue)
    ensures a.Consume? ==> [s.queue[0]] + Next(s, a).queue == s.queue
    ensures a.Enqueue? || (a.WakeUp? && |s.queue| < s.capacity) ==> Next(s, a).queue == s.queue + [a.h]
    ensures !a.Consume? && !a.Enqueue? && !(a.WakeUp? && |s.queue| < s.capacity) ==> Next(s, a).queue == s.queue
  {
    if a.Consume? {
      assert IsQueued(s.items, s.queue[0]);
    }
  }

  lemma QueueInRun(ss: seq<State>, steps: seq<Step>, n: nat)
    requires Run(ss, steps) && n < |steps|
    ensures var s, a, q := ss[n], steps[n], ss[n + 1].queue;
            if a.Consume? then s.queue != [] && [s.queue[0]] + q == s.queue
            else q == s.queue + if a.Enqueue? || (a.WakeUp? && |s.queue| < s.capacity) then [a.h] else []
  {
    assert Follows(ss, steps, n);
    Conservation(ss, steps, n);
    QueueStep(ss[n], steps[n]);
  }

  lemma Regroup(served: seq<nat>, queue: seq<nat>, after: seq<nat>)
    ensures queue != [] && [queue[0]] + after == queue ==> served + queue == served + [queue[0]] + after
    ensures forall x | after == queue + x :: served + queue + x == served + after
  {
  }

  /** First in, first out: what entered is what was served, in that order, and then what is waiting. */
  lemma {:induction false} FirstInFirstOut(ss: seq<State>, steps: seq<Step>, n: nat)
    requires Run(ss, steps) && n <= |steps|
    ensures Entered(ss, steps, n) == Served(ss, steps, n) + ss[n].queue
    decreases n
  {
    if n > 0 {
      FirstInFirstOut(ss, steps, n - 1);
      QueueInRun(ss, steps, n - 1);
      Regroup(Served(ss, steps, n - 1), ss[n - 1].queue, ss[n].queue);
    }
  }
}
