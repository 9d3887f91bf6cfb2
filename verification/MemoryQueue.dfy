/**
 The in-memory jobs driver as a state machine: pushes blocked on the local queue, sleeping
 goroutines, the queue itself, items with the pollers, two counters and the goroutine count.

 One transition is one atomic operation or channel operation of the source, interleaved in any way.
 The counters are taken as unbounded integers.
 */
module MemoryQueue {
  import Sets

  const GOROUTINES_MAX: nat := 1000

  /** Where a job is. */
  datatype Place =
    | Blocked(patient: bool)   // counted in `active`, sending into the queue; a requeue never times out
    | Spawned                  // its goroutine has not counted itself yet
    | Counted                  // counted in `goroutines`, not yet in `delayed`
    | Sleeping
    | Queued
    | Out                      // taken by the consumer: in the priority queue or with a poller
    | Returning                // inside a requeue: discounted, not yet handled again
    | Refused                  // a requeue of it failed, the poller still has it

  datatype Item = Item(place: Place, delay: int)

  datatype State = State(
    capacity: nat,
    listening: bool,
    active: int,
    delayed: int,
    goroutines: int,
    items: map<nat, Item>,
    queue: seq<nat>,           // the local queue, first in first out
    leaving: nat,              // goroutines that have sent but not yet discounted themselves
    // totals
    timedOut: nat,
    dropped: nat,
    lateAcks: nat,             // acknowledgements of refused requeues
    responded: nat)            // jobs that were only responded to, and forgotten

  datatype Step =
    | Push(h: nat, delay: int)
    | Enqueue(h: nat) | TimeOut(h: nat)
    | CountGoroutine(h: nat) | CountDelayed(h: nat)
    | WakeUp(h: nat) | Leave
    | Consume | Pause | Resume
    | Settle(h: nat)                 // Ack and Nack do the same
    | Respond(h: nat)                // does nothing, and the poller forgets the item
    | Requeue(h: nat, delay: int)    // a requeue up to its discount
    | Rehandle(h: nat)               // the rest of it, up to its first blocking point

  function Empty(capacity: nat): State
  {
    State(capacity, false, 0, 0, 0, map[], [], 0, 0, 0, 0, 0)
  }

  predicate Initial(s: State)
  {
    s.capacity > 0 && s == Empty(s.capacity)
  }

  predicate Is(s: State, h: nat, p: Place)
  {
    h in s.items && s.items[h].place == p
  }

  predicate Enabled(s: State, a: Step)
  {
    match a
    case Push(h, _) => h !in s.items
    case Enqueue(h) => h in s.items && s.items[h].place.Blocked? && |s.queue| < s.capacity
    case TimeOut(h) => Is(s, h, Blocked(false))
    case CountGoroutine(h) => Is(s, h, Spawned)
    case CountDelayed(h) => Is(s, h, Counted)
    case WakeUp(h) => Is(s, h, Sleeping)
    case Leave => s.leaving > 0
    case Consume => s.listening && s.queue != []
    case Pause => s.listening
    case Resume => !s.listening
    case Settle(h) => Is(s, h, Out) || Is(s, h, Refused)
    case Respond(h) => Is(s, h, Out)
    case Requeue(h, _) => Is(s, h, Out)
    case Rehandle(h) => Is(s, h, Returning)
  }

  function Put(s: State, h: nat, x: Item): State
  {
    s.(items := s.items[h := x])
  }

  /** `atomicallyReduceCount`, by the delay the item has at that moment. */
  function Reduced(s: State, delay: int): State
  {
    if delay > 0 then s.(delayed := s.delayed - 1) else s.(active := s.active - 1)
  }

  /** `handleItem` up to its first blocking point; a refused job is returned as an error. */
  function Handle(s: State, h: nat, delay: int, patient: bool, refused: State): State
  {
    if delay > 0 then
      if s.goroutines >= GOROUTINES_MAX then refused else Put(s, h, Item(Spawned, delay))
    else
      Put(s, h, Item(Blocked(patient), delay)).(active := s.active + 1)
  }

  function Next(s: State, a: Step): State
    requires Enabled(s, a)
  {
    match a
    case Push(h, delay) => Handle(s, h, delay, false, s)
    case Enqueue(h) => Put(s, h, s.items[h].(place := Queued)).(queue := s.queue + [h])
    case TimeOut(h) => s.(items := s.items - {h}, timedOut := s.timedOut + 1)
    case CountGoroutine(h) => Put(s, h, s.items[h].(place := Counted)).(goroutines := s.goroutines + 1)
    case CountDelayed(h) => Put(s, h, s.items[h].(place := Sleeping)).(delayed := s.delayed + 1)
    case WakeUp(h) =>
      if |s.queue| < s.capacity then
        Put(s, h, s.items[h].(place := Queued)).(queue := s.queue + [h], leaving := s.leaving + 1)
      else
        s.(items := s.items - {h}, dropped := s.dropped + 1)
    case Leave => s.(leaving := s.leaving - 1, goroutines := s.goroutines - 1)
    case Consume =>
      var h := s.queue[0];
      if h in s.items then Put(s, h, s.items[h].(place := Out)).(queue := s.queue[1..]) else s
    case Pause => s.(listening := false)
    case Resume => s.(listening := true)
    case Settle(h) =>
      Reduced(s, s.items[h].delay)
        .(items := s.items - {h}, lateAcks := s.lateAcks + if s.items[h].place.Refused? then 1 else 0)
    case Respond(h) => s.(items := s.items - {h}, responded := s.responded + 1)
    case Requeue(h, delay) => Put(Reduced(s, delay), h, Item(Returning, delay))
    case Rehandle(h) =>
      var delay := s.items[h].delay;
      Handle(s, h, delay, true, Put(s, h, Item(Refused, delay)))
  }

  ghost predicate Follows(ss: seq<State>, steps: seq<Step>, i: nat)
    requires i + 1 < |ss| && i < |steps|
  {
    Enabled(ss[i], steps[i]) && ss[i + 1] == Next(ss[i], steps[i])
  }

  ghost predicate Run(ss: seq<State>, steps: seq<Step>)
  {
    |ss| == |steps| + 1 && Initial(ss[0]) && forall i | 0 <= i < |steps| :: Follows(ss, steps, i)
  }

  // Counting

  /** The driver owes these jobs a place in its counters. */
  predicate IsHeld(p: Place)
  {
    p.Blocked? || p.Sleeping? || p.Queued? || p.Out?
  }

  predicate HasGoroutine(p: Place)
  {
    p.Counted? || p.Sleeping?
  }

  function Held(items: map<nat, Item>): set<nat>
  {
    set h | h in items && IsHeld(items[h].place)
  }

  function Goroutines(items: map<nat, Item>): set<nat>
  {
    set h | h in items && HasGoroutine(items[h].place)
  }

  function One(b: bool): nat
  {
    if b then 1 else 0
  }

  lemma HeldPut(items: map<nat, Item>, h: nat, x: Item)
    ensures |Held(items[h := x])| == |Held(items)| - One(h in items && IsHeld(items[h].place)) + One(IsHeld(x.place))
  {
    HeldSet(items, h, x);
    Sets.ReplaceSize(Held(items), h, IsHeld(x.place));
  }

  lemma HeldSet(items: map<nat, Item>, h: nat, x: Item)
    ensures Held(items[h := x]) == (Held(items) - {h}) + if IsHeld(x.place) then {h} else {}
    ensures h in Held(items) <==> h in items && IsHeld(items[h].place)
  {
  }

  lemma HeldDrop(items: map<nat, Item>, h: nat)
    requires h in items
    ensures |Held(items - {h})| == |Held(items)| - One(IsHeld(items[h].place))
  {
    assert Held(items - {h}) == Held(items) - {h};
  }

  lemma GoroutinesPut(items: map<nat, Item>, h: nat, x: Item)
    ensures |Goroutines(items[h := x])| ==
            |Goroutines(items)| - One(h in items && HasGoroutine(items[h].place)) + One(HasGoroutine(x.place))
  {
    GoroutinesSet(items, h, x);
    Sets.ReplaceSize(Goroutines(items), h, HasGoroutine(x.place));
  }

  lemma GoroutinesSet(items: map<nat, Item>, h: nat, x: Item)
    ensures Goroutines(items[h := x]) == (Goroutines(items) - {h}) + if HasGoroutine(x.place) then {h} else {}
    ensures h in Goroutines(items) <==> h in items && HasGoroutine(items[h].place)
  {
  }

  lemma GoroutinesDrop(items: map<nat, Item>, h: nat)
    requires h in items
    ensures |Goroutines(items - {h})| == |Goroutines(items)| - One(HasGoroutine(items[h].place))
  {
    assert Goroutines(items - {h}) == Goroutines(items) - {h};
  }

  /** What the two counters together count. */
  function Expected(s: State): int
  {
    |Held(s.items)| + s.timedOut + s.dropped + s.responded - s.lateAcks
  }

  /** What the goroutine count counts: a goroutine whose job was dropped never discounts itself. */
  function ExpectedGoroutines(s: State): int
  {
    |Goroutines(s.items)| + s.leaving + s.dropped
  }

  ghost predicate Sums(s: State)
  {
    s.active + s.delayed == Expected(s) && s.goroutines == ExpectedGoroutines(s)
  }

  predicate IsQueued(items: map<nat, Item>, h: nat)
  {
    h in items && items[h].place.Queued?
  }

  /** The queue holds each queued job once. */
  ghost predicate Matches(items: map<nat, Item>, queue: seq<nat>)
  {
    && (forall h | h in queue :: IsQueued(items, h))
    && (forall h | IsQueued(items, h) :: h in queue)
    && (forall i, j | 0 <= i < j < |queue| :: queue[i] != queue[j])
  }

  ghost predicate Good(s: State)
  {
    Sums(s) && Matches(s.items, s.queue) && |s.queue| <= s.capacity
  }

  lemma MatchesAppend(items: map<nat, Item>, queue: seq<nat>, h: nat, x: Item)
    requires Matches(items, queue) && h in items && !IsQueued(items, h) && x.place.Queued?
    ensures Matches(items[h := x], queue + [h])
  {
    var q' := queue + [h];
    assert forall i | 0 <= i < |queue| :: queue[i] in queue;
    forall y | IsQueued(items[h := x], y) ensures y in q' {
      if y != h {
        assert IsQueued(items, y);
      }
    }
  }

  lemma MatchesPop(items: map<nat, Item>, queue: seq<nat>, x: Item)
    requires Matches(items, queue) && queue != [] && !x.place.Queued?
    ensures Matches(items[queue[0] := x], queue[1..])
  {
    var h, q', items' := queue[0], queue[1..], items[queue[0] := x];
    forall y | y in q' ensures IsQueued(items', y) {
      var i :| 0 <= i < |q'| && q'[i] == y;
      assert queue[i + 1] == y && y in queue;
    }
    forall y | IsQueued(items', y) ensures y in q' {
      assert IsQueued(items, y);
      var i :| 0 <= i < |queue| && queue[i] == y;
      assert q'[i - 1] == y;
    }
  }

  lemma MatchesPut(items: map<nat, Item>, queue: seq<nat>, h: nat, x: Item)
    requires Matches(items, queue) && !IsQueued(items, h) && !x.place.Queued?
    ensures Matches(items[h := x], queue)
  {
    assert forall y :: IsQueued(items[h := x], y) <==> IsQueued(items, y);
  }

  lemma MatchesDrop(items: map<nat, Item>, queue: seq<nat>, h: nat)
    requires Matches(items, queue) && !IsQueued(items, h)
    ensures Matches(items - {h}, queue)
  {
    assert forall y :: IsQueued(items - {h}, y) <==> IsQueued(items, y);
  }

  lemma QueueKept(s: State, a: Step)
    requires Good(s) && Enabled(s, a)
    ensures Matches(Next(s, a).items, Next(s, a).queue) && |Next(s, a).queue| <= s.capacity
  {
    match a {
      case Push(h, delay) =>
        MatchesPut(s.items, s.queue, h, Item(Spawned, delay));
        MatchesPut(s.items, s.queue, h, Item(Blocked(false), delay));
      case Enqueue(h) => MatchesAppend(s.items, s.queue, h, s.items[h].(place := Queued));
      case CountGoroutine(h) => MatchesPut(s.items, s.queue, h, s.items[h].(place := Counted));
      case CountDelayed(h) => MatchesPut(s.items, s.queue, h, s.items[h].(place := Sleeping));
      case TimeOut(h) => MatchesDrop(s.items, s.queue, h);
      case Settle(h) => MatchesDrop(s.items, s.queue, h);
      case Respond(h) => MatchesDrop(s.items, s.queue, h);
      case WakeUp(h) =>
        MatchesAppend(s.items, s.queue, h, s.items[h].(place := Queued));
        MatchesDrop(s.items, s.queue, h);
      case Consume =>
        assert IsQueued(s.items, s.queue[0]);
        MatchesPop(s.items, s.queue, s.items[s.queue[0]].(place := Out));
      case Requeue(h, delay) => MatchesPut(s.items, s.queue, h, Item(Returning, delay));
      case Rehandle(h) =>
        var delay := s.items[h].delay;
        MatchesPut(s.items, s.queue, h, Item(Spawned, delay));
        MatchesPut(s.items, s.queue, h, Item(Blocked(true), delay));
        MatchesPut(s.items, s.queue, h, Item(Refused, delay));
      case _ =>
    }
  }

  /** What moving one item does to both sums. */
  lemma SumsPut(items: map<nat, Item>, h: nat, x: Item)
    ensures |Held(items[h := x])| == |Held(items)| - One(h in items && IsHeld(items[h].place)) + One(IsHeld(x.place))
    ensures |Goroutines(items[h := x])| ==
            |Goroutines(items)| - One(h in items && HasGoroutine(items[h].place)) + One(HasGoroutine(x.place))
  {
    HeldPut(items, h, x);
    GoroutinesPut(items, h, x);
  }

  lemma SumsDrop(items: map<nat, Item>, h: nat)
    requires h in items
    ensures |Held(items - {h})| == |Held(items)| - One(IsHeld(items[h].place))
    ensures |Goroutines(items - {h})| == |Goroutines(items)| - One(HasGoroutine(items[h].place))
  {
    HeldDrop(items, h);
    GoroutinesDrop(items, h);
  }

  lemma MoveSums(s: State, a: Step)
    requires Sums(s) && Enabled(s, a) && (a.Push? || a.Enqueue? || a.CountGoroutine? || a.CountDelayed?)
    ensures Sums(Next(s, a))
  {
    var x := match a
      case Push(_, delay) => Item(if delay > 0 then Spawned else Blocked(false), delay)
      case Enqueue(h) => s.items[h].(place := Queued)
      case CountGoroutine(h) => s.items[h].(place := Counted)
      case CountDelayed(h) => s.items[h].(place := Sleeping)
      case _ => Item(Out, 0);
    SumsPut(s.items, a.h, x);
  }

  lemma RemovalSums(s: State, a: Step)
    requires Sums(s) && Enabled(s, a) && (a.TimeOut? || a.Settle? || a.Respond?)
    ensures Sums(Next(s, a))
  {
    SumsDrop(s.items, a.h);
  }

  lemma WakeUpSums(s: State, h: nat)
    requires Sums(s) && Is(s, h, Sleeping)
    ensures Sums(Next(s, WakeUp(h)))
  {
    if |s.queue| < s.capacity {
      SumsPut(s.items, h, s.items[h].(place := Queued));
    } else {
      SumsDrop(s.items, h);
    }
  }

  lemma ConsumeSums(s: State)
    requires Sums(s) && Matches(s.items, s.queue) && s.queue != [] && s.listening
    ensures Sums(Next(s, Consume))
  {
    assert IsQueued(s.items, s.queue[0]);
    SumsPut(s.items, s.queue[0], s.items[s.queue[0]].(place := Out));
  }

  lemma RequeueSums(s: State, h: nat, delay: int)
    requires Sums(s) && Is(s, h, Out)
    ensures Sums(Next(s, Requeue(h, delay)))
  {
    SumsPut(s.items, h, Item(Returning, delay));
  }

  lemma RehandleSums(s: State, h: nat)
    requires Sums(s) && Is(s, h, Returning)
    ensures Sums(Next(s, Rehandle(h)))
  {
    var delay := s.items[h].delay;
    var p := if delay <= 0 then Blocked(true) else if s.goroutines >= GOROUTINES_MAX then Refused else Spawned;
    SumsPut(s.items, h, Item(p, delay));
  }

  lemma StepKeepsGood(s: State, a: Step)
    requires Good(s) && Enabled(s, a)
    ensures Good(Next(s, a))
  {
    QueueKept(s, a);
    match a
    case Push(_, _) => MoveSums(s, a);
    case Enqueue(_) => MoveSums(s, a);
    case CountGoroutine(_) => MoveSums(s, a);
    case CountDelayed(_) => MoveSums(s, a);
    case TimeOut(_) => RemovalSums(s, a);
    case Settle(_) => RemovalSums(s, a);
    case Respond(_) => RemovalSums(s, a);
    case WakeUp(h) => WakeUpSums(s, h);
    case Consume => ConsumeSums(s);
    case Requeue(h, delay) => RequeueSums(s, h, delay);
    case Rehandle(h) => RehandleSums(s, h);
    case Leave =>
    case Pause =>
    case Resume =>
  }

  /** Conservation: the counters, the goroutine count and the queue, in every reachable state. */
  lemma {:induction false} Conservation(ss: seq<State>, steps: seq<Step>, i: nat)
    requires Run(ss, steps) && i <= |steps|
    ensures ss[i].active + ss[i].delayed == Expected(ss[i])
    ensures ss[i].goroutines == ExpectedGoroutines(ss[i])
    ensures Good(ss[i])
    decreases i
  {
    if i == 0 {
      assert Held(ss[0].items) == {} && Goroutines(ss[0].items) == {};
    } else {
      Conservation(ss, steps, i - 1);
      assert Follows(ss, steps, i - 1);
      StepKeepsGood(ss[i - 1], steps[i - 1]);
    }
  }

  /** A job that is only responded to stays in the counters for ever: they never show less than there were of them. */
  lemma {:induction false} RespondedStay(ss: seq<State>, steps: seq<Step>, i: nat, j: nat)
    requires Run(ss, steps) && i <= j <= |steps|
    ensures ss[i].responded <= ss[j].responded
    ensures ss[i].responded <= ss[j].active + ss[j].delayed + ss[j].lateAcks
    decreases j
  {
    Conservation(ss, steps, j);
    if j > i {
      RespondedStay(ss, steps, i, j - 1);
      assert Follows(ss, steps, j - 1);
    }
  }

  /** Jobs dropped on wake-up are never forgotten by the goroutine count. */
  lemma {:induction false} DropsAddUp(ss: seq<State>, steps: seq<Step>, i: nat, j: nat)
    requires Run(ss, steps) && i <= j <= |steps|
    ensures ss[i].dropped <= ss[j].dropped && ss[i].dropped <= ss[j].goroutines
    decreases j
  {
    Conservation(ss, steps, j);
    if j > i {
      DropsAddUp(ss, steps, i, j - 1);
      assert Follows(ss, steps, j - 1);
    }
  }

  // Refused delays

  /** The step asks for a delay and is refused. */
  predicate Refuses(s: State, a: Step)
    requires Enabled(s, a)
  {
    match a
    case Push(_, delay) => delay > 0 && Next(s, a) == s
    case Rehandle(h) => s.items[h].delay > 0 && Is(Next(s, a), h, Refused)
    case _ => false
  }

  predicate AsksForDelay(s: State, a: Step)
    requires Enabled(s, a)
  {
    (a.Push? && a.delay > 0) || (a.Rehandle? && s.items[a.h].delay > 0)
  }

  /**
   A delayed push or requeue is refused exactly when sleepers, goroutines about to leave and jobs
   ever dropped on wake-up number a thousand together.
   */
  lemma RefusedExactly(ss: seq<State>, steps: seq<Step>, j: nat)
    requires Run(ss, steps) && j < |steps| && Enabled(ss[j], steps[j]) && AsksForDelay(ss[j], steps[j])
    ensures Refuses(ss[j], steps[j]) <==> |Goroutines(ss[j].items)| + ss[j].leaving + ss[j].dropped >= 1000
  {
    Conservation(ss, steps, j);
  }

  /**
   Once a thousand delayed jobs have been dropped on wake-up, every further delayed push is
   refused, and every requeue with a delay too, however idle the driver is.
   */
  lemma DelaysEndForGood(ss: seq<State>, steps: seq<Step>, i: nat, j: nat)
    requires Run(ss, steps) && i <= j < |steps| && ss[i].dropped >= 1000
    requires Enabled(ss[j], steps[j]) && AsksForDelay(ss[j], steps[j])
    ensures Refuses(ss[j], steps[j])
  {
    DropsAddUp(ss, steps, i, j);
  }

  /** The steps can be taken one after the other, and lead to `last`. */
  ghost predicate Leads(s: State, more: seq<Step>, last: State)
    decreases |more|
  {
    if more == [] then s == last else Enabled(s, more[0]) && Leads(Next(s, more[0]), more[1..], last)
  }

  lemma {:induction false} LeadsOn(s: State, more: seq<Step>, mid: State, rest: seq<Step>, last: State)
    requires Leads(s, more, mid) && Leads(mid, rest, last)
    ensures Leads(s, more + rest, last)
    decreases |more|
  {
    if more == [] {
      assert more + rest == rest;
    } else {
      LeadsOn(Next(s, more[0]), more[1..], mid, rest, last);
      assert (more + rest)[1..] == more[1..] + rest;
    }
  }

  lemma LeadsOne(s: State, a: Step)
    requires Enabled(s, a)
    ensures Leads(s, [a], Next(s, a))
  {
    assert [a][1..] == [];
  }

  /** Steps still needed until every goroutine is gone. */
  function Unfinished(items: map<nat, Item>): set<nat>
  {
    set h | h in items && items[h].place.Counted?
  }

  function Effort(s: State): nat
  {
    |Unfinished(s.items)| + 2 * |Goroutines(s.items)| + s.leaving
  }

  lemma CountingIsProgress(s: State, h: nat)
    requires Is(s, h, Counted)
    ensures Effort(Next(s, CountDelayed(h))) < Effort(s)
  {
    var items' := Next(s, CountDelayed(h)).items;
    assert Goroutines(items') == Goroutines(s.items);
    assert Unfinished(items') == Unfinished(s.items) - {h} && h in Unfinished(s.items);
  }

  lemma WakingIsProgress(s: State, h: nat)
    requires Is(s, h, Sleeping) && |s.queue| < s.capacity
    ensures Effort(Next(s, WakeUp(h))) < Effort(s) && Next(s, WakeUp(h)).dropped == s.dropped
  {
    var items' := Next(s, WakeUp(h)).items;
    assert Goroutines(items') == Goroutines(s.items) - {h} && h in Goroutines(s.items);
    assert Unfinished(items') == Unfinished(s.items);
  }

  /** Taking from the queue makes room and touches no sleeper. */
  lemma RoomIsMade(s: State, h: nat) returns (more: seq<Step>, r: State)
    requires Good(s) && s.capacity > 0 && Is(s, h, Sleeping)
    ensures Leads(s, more, r) && Good(r) && Is(r, h, Sleeping) && |r.queue| < r.capacity == s.capacity
    ensures Effort(r) == Effort(s) && r.dropped == s.dropped
    decreases !s.listening
  {
    if |s.queue| < s.capacity {
      more, r := [], s;
    } else if !s.listening {
      StepKeepsGood(s, Resume);
      var rest;
      rest, r := RoomIsMade(Next(s, Resume), h);
      more := [Resume] + rest;
      assert more[1..] == rest;
    } else {
      var x := s.queue[0];
      assert IsQueued(s.items, x);
      StepKeepsGood(s, Consume);
      LeadsOne(s, Consume);
      more, r := [Consume], Next(s, Consume);
      assert Goroutines(r.items) == Goroutines(s.items) && Unfinished(r.items) == Unfinished(s.items);
    }
  }

  /** Without a thousand drops, the goroutines can all come to their end, and leave room for a delay. */
  lemma {:induction false} DelaysCanResume(s: State) returns (more: seq<Step>, r: State)
    requires Good(s) && s.capacity > 0 && s.dropped < GOROUTINES_MAX
    ensures Leads(s, more, r) && Good(r) && r.goroutines < GOROUTINES_MAX
    decreases Effort(s)
  {
    if s.goroutines < GOROUTINES_MAX {
      return [], s;
    }
    var first, mid := NextEnd(s);
    var rest;
    rest, r := DelaysCanResume(mid);
    more := first + rest;
    LeadsOn(s, first, mid, rest, r);
  }

  /** One goroutine gets a little further. */
  lemma NextEnd(s: State) returns (more: seq<Step>, r: State)
    requires Good(s) && s.capacity > 0 && s.dropped < GOROUTINES_MAX <= s.goroutines
    ensures Leads(s, more, r) && Good(r) && r.capacity > 0 && r.dropped == s.dropped && Effort(r) < Effort(s)
  {
    if s.leaving > 0 {
      StepKeepsGood(s, Leave);
      LeadsOne(s, Leave);
      return [Leave], Next(s, Leave);
    }
    assert Goroutines(s.items) != {};
    var h :| h in Goroutines(s.items);
    if s.items[h].place.Counted? {
      StepKeepsGood(s, CountDelayed(h));
      LeadsOne(s, CountDelayed(h));
      CountingIsProgress(s, h);
      return [CountDelayed(h)], Next(s, CountDelayed(h));
    }
    var first, mid := RoomIsMade(s, h);
    WakingIsProgress(mid, h);
    StepKeepsGood(mid, WakeUp(h));
    LeadsOne(mid, WakeUp(h));
    LeadsOn(s, first, mid, [WakeUp(h)], Next(mid, WakeUp(h)));
    return first + [WakeUp(h)], Next(mid, WakeUp(h));
  }

  /** Whatever happens, a delay that is asked for is refused. */
  ghost predicate DelaysAreOver(s: State)
  {
    forall more, r, a | Leads(s, more, r) && Enabled(r, a) && AsksForDelay(r, a) :: Refuses(r, a)
  }

  lemma {:induction false} DropsStay(s: State, more: seq<Step>, r: State)
    requires Good(s) && Leads(s, more, r)
    ensures Good(r) && s.dropped <= r.dropped
    decreases |more|
  {
    if more != [] {
      StepKeepsGood(s, more[0]);
      DropsStay(Next(s, more[0]), more[1..], r);
    }
  }

  lemma {:induction false} CapacityStays(ss: seq<State>, steps: seq<Step>, i: nat)
    requires Run(ss, steps) && i <= |steps|
    ensures ss[i].capacity > 0
    decreases i
  {
    if i > 0 {
      CapacityStays(ss, steps, i - 1);
      assert Follows(ss, steps, i - 1);
    }
  }

  /** Delayed jobs are refused from now on, in every continuation, exactly after a thousand drops. */
  lemma DelaysAreOverExactly(ss: seq<State>, steps: seq<Step>, i: nat)
    requires Run(ss, steps) && i <= |steps|
    ensures DelaysAreOver(ss[i]) <==> ss[i].dropped >= 1000
  {
    Conservation(ss, steps, i);
    CapacityStays(ss, steps, i);
    var s := ss[i];
    if s.dropped >= GOROUTINES_MAX {
      forall more, r, a | Leads(s, more, r) && Enabled(r, a) && AsksForDelay(r, a) ensures Refuses(r, a) {
        DropsStay(s, more, r);
      }
    } else {
      var more, r := DelaysCanResume(s);
      var h := Sets.BeyondAll(r.items.Keys);
      var a := Push(h, 1);
      assert Leads(s, more, r) && Enabled(r, a) && AsksForDelay(r, a) && !Refuses(r, a);
    }
  }

  // A thousand drops

  function First(n: nat): (hs: seq<nat>)
    ensures |hs| == n && forall h: nat :: h in hs <==> h < n
  {
    if n == 0 then [] else First(n - 1) + [n - 1]
  }

  /** `n` immediate jobs in the queue, none taken. */
  function Filled(capacity: nat, n: nat): State
  {
    Empty(capacity).(active := n, items := map h | h in First(n) :: Item(Queued, 0), queue := First(n))
  }

  /** A full queue, and `n` delayed jobs that found it so. */
  function Spoiled(capacity: nat, n: nat): State
  {
    Filled(capacity, capacity).(delayed := n, goroutines := n, dropped := n)
  }

  lemma FillOne(capacity: nat, n: nat)
    requires n < capacity
    ensures Leads(Filled(capacity, n), [Push(n, 0), Enqueue(n)], Filled(capacity, n + 1))
  {
    var s := Filled(capacity, n);
    var s1 := Next(s, Push(n, 0));
    var s2 := Next(s1, Enqueue(n));
    assert s2.items == Filled(capacity, n + 1).items && s2.queue == Filled(capacity, n + 1).queue;
    LeadsOne(s, Push(n, 0));
    LeadsOne(s1, Enqueue(n));
    LeadsOn(s, [Push(n, 0)], s1, [Enqueue(n)], s2);
    assert [Push(n, 0)] + [Enqueue(n)] == [Push(n, 0), Enqueue(n)];
  }

  lemma SpoilOne(capacity: nat, n: nat)
    requires n < GOROUTINES_MAX
    ensures Leads(Spoiled(capacity, n),
                  [Push(capacity, 1), CountGoroutine(capacity), CountDelayed(capacity), WakeUp(capacity)],
                  Spoiled(capacity, n + 1))
  {
    var c := capacity;
    var s := Spoiled(c, n);
    var s1 := Next(s, Push(c, 1));
    var s2 := Next(s1, CountGoroutine(c));
    var s3 := Next(s2, CountDelayed(c));
    var s4 := Next(s3, WakeUp(c));
    assert s4.items == s.items;
    LeadsOne(s3, WakeUp(c));
    var more := [Push(c, 1), CountGoroutine(c), CountDelayed(c), WakeUp(c)];
    assert more[1..] == [CountGoroutine(c), CountDelayed(c), WakeUp(c)];
    assert more[1..][1..] == [CountDelayed(c), WakeUp(c)];
    assert more[1..][1..][1..] == [WakeUp(c)];
  }

  lemma {:induction false} FillQueue(capacity: nat, n: nat) returns (more: seq<Step>)
    requires n <= capacity
    ensures Leads(Empty(capacity), more, Filled(capacity, n))
  {
    if n == 0 {
      more := [];
      assert Filled(capacity, 0).items == map[] && Filled(capacity, 0).queue == [];
    } else {
      var before := FillQueue(capacity, n - 1);
      FillOne(capacity, n - 1);
      var two := [Push(n - 1, 0), Enqueue(n - 1)];
      LeadsOn(Empty(capacity), before, Filled(capacity, n - 1), two, Filled(capacity, n));
      more := before + two;
    }
  }

  /** Any number of drops up to the limit can happen, whatever the capacity. */
  lemma {:induction false} DropsHappen(capacity: nat, n: nat) returns (more: seq<Step>)
    requires n <= GOROUTINES_MAX
    ensures Leads(Empty(capacity), more, Spoiled(capacity, n))
  {
    if n == 0 {
      more := FillQueue(capacity, capacity);
      assert Spoiled(capacity, 0) == Filled(capacity, capacity);
    } else {
      var before := DropsHappen(capacity, n - 1);
      SpoilOne(capacity, n - 1);
      var four := [Push(capacity, 1), CountGoroutine(capacity), CountDelayed(capacity), WakeUp(capacity)];
      LeadsOn(Empty(capacity), before, Spoiled(capacity, n - 1), four, Spoiled(capacity, n));
      more := before + four;
    }
  }

  /** Steps that can be taken make a run. */
  lemma {:induction false} LeadsIsARun(ss: seq<State>, steps: seq<Step>, more: seq<Step>, last: State)
      returns (ss': seq<State>)
    requires Run(ss, steps) && Leads(ss[|steps|], more, last)
    ensures Run(ss', steps + more) && ss'[0] == ss[0] && ss'[|steps + more|] == last
    decreases |more|
  {
    if more == [] {
      ss' := ss;
      assert steps + more == steps;
    } else {
      var a := more[0];
      var ss1, steps1 := ss + [Next(ss[|steps|], a)], steps + [a];
      forall i | 0 <= i < |steps1| ensures Follows(ss1, steps1, i) {
        if i < |steps| {
          assert Follows(ss, steps, i);
        }
      }
      ss' := LeadsIsARun(ss1, steps1, more[1..], last);
      assert steps1 + more[1..] == steps + more;
    }
  }

  /** For every capacity there is a run after which delayed jobs are refused for good. */
  lemma DelaysCanEnd(capacity: nat) returns (ss: seq<State>, steps: seq<Step>)
    requires capacity > 0
    ensures Run(ss, steps) && ss[0].capacity == capacity && DelaysAreOver(ss[|steps|])
  {
    steps := DropsHappen(capacity, GOROUTINES_MAX);
    ss := LeadsIsARun([Empty(capacity)], [], steps, Spoiled(capacity, GOROUTINES_MAX));
    assert [] + steps == steps;
    DelaysAreOverExactly(ss, steps, |steps|);
  }

  /**
   `Stop` means to drain the queue, but its loop compares a rising index with the shrinking length
   and leaves the second half.
   */
  method DrainOnStop(queue: seq<nat>) returns (left: seq<nat>)
    ensures left == queue[(|queue| + 1) / 2..]
  {
    left := queue;
    var i := 0;
    while i < |left|
      invariant 0 <= i <= |queue| && left == queue[i..]
      invariant 2 * i <= |queue| + 1
      decreases |left|
    {
      left := left[1..];
      i := i + 1;
    }
  }
}
