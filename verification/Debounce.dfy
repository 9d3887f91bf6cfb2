/**
 The debounce loop of the reload plugin: events gather services in a map and restart a timer, and
 when the timer fires the gathered services are reset.

 Stopping a timer does not take back a tick that it has already put into its one-slot channel, so
 such a tick may be received later; time itself is left free.
 */
module Debounce {
  /** `armed`: the timer runs; `ticked`: a tick lies in its channel. */
  datatype State = State(
    running: bool,
    updated: set<string>,
    armed: bool,
    ticked: bool,
    events: map<string, nat>,    // events received for each service
    resets: map<string, nat>)    // resets done for each service

  datatype Step =
    | Received(service: string)
    | Fire                       // the timer runs out
    | Tick                       // the tick is received and every reset succeeds
    | TickFails(done: set<string>)  // a reset fails after those of `done` succeeded
    | Stop

  function Count(m: map<string, nat>, s: string): nat
  {
    if s in m then m[s] else 0
  }

  function Bump(m: map<string, nat>, services: set<string>): map<string, nat>
  {
    map s | s in m.Keys + services :: Count(m, s) + if s in services then 1 else 0
  }

  predicate Initial(s: State)
  {
    s == State(true, {}, true, false, map[], map[])
  }

  predicate Enabled(s: State, a: Step)
  {
    s.running &&
    match a
    case Received(_) => true
    case Fire => s.armed
    case Tick => s.ticked
    case TickFails(done) => s.ticked && done < s.updated
    case Stop => true
  }

  function Next(s: State, a: Step): State
    requires Enabled(s, a)
  {
    match a
    case Received(x) => s.(updated := s.updated + {x}, armed := true, events := Bump(s.events, {x}))
    case Fire => s.(armed := false, ticked := true)
    case Tick => s.(ticked := false, updated := {}, resets := Bump(s.resets, s.updated))
    case TickFails(done) => s.(running := false, ticked := false, armed := false, resets := Bump(s.resets, done))
    case Stop => s.(running := false, armed := false)
  }

  ghost predicate Follows(ss: seq<State>, steps: seq<Step>, i: nat)
    requires i + 1 < |ss| && i < |steps|
  {
    Enabled(ss[i], steps[i]) && ss[i + 1] == Next(ss[i], steps[i])
  }

  ghost predicate Run(ss: seq<State>, steps: seq<Step>)
  {
    |ss| == |steps| + 1 && Initial(ss[0]) && forall i | 0 <= i < |steps| :: Follows(ss, steps, i)
  }

  ghost predicate Good(s: State)
  {
    && (s.running && s.updated != {} ==> s.armed || s.ticked)
    && (forall x: string :: Count(s.resets, x) + (if s.running && x in s.updated then 1 else 0) <= Count(s.events, x))
  }

  lemma BumpCounts(m: map<string, nat>, services: set<string>, x: string)
    ensures Count(Bump(m, services), x) == Count(m, x) + if x in services then 1 else 0
  {
  }

  lemma StepKeepsGood(s: State, a: Step)
    requires Good(s) && Enabled(s, a)
    ensures Good(Next(s, a))
  {
    var s' := Next(s, a);
    forall x: string
      ensures Count(s'.resets, x) + (if s'.running && x in s'.updated then 1 else 0) <= Count(s'.events, x)
    {
      assert Count(s.resets, x) + (if s.running && x in s.updated then 1 else 0) <= Count(s.events, x);
      match a {
        case Received(y) => BumpCounts(s.events, {y}, x);
        case Tick => BumpCounts(s.resets, s.updated, x);
        case TickFails(done) => BumpCounts(s.resets, done, x);
        case _ =>
      }
    }
  }

  lemma {:induction false} ReachableIsGood(ss: seq<State>, steps: seq<Step>, i: nat)
    requires Run(ss, steps) && i <= |steps|
    ensures Good(ss[i])
    decreases i
  {
    if i > 0 {
      ReachableIsGood(ss, steps, i - 1);
      assert Follows(ss, steps, i - 1);
      StepKeepsGood(ss[i - 1], steps[i - 1]);
    }
  }

  /** While the loop runs, services that wait have a tick coming or come. */
  lemma SomethingIsComing(ss: seq<State>, steps: seq<Step>, i: nat)
    requires Run(ss, steps) && i <= |steps| && ss[i].running && ss[i].updated != {}
    ensures Enabled(ss[i], Fire) || Enabled(ss[i], Tick)
  {
    ReachableIsGood(ss, steps, i);
  }

  /** A service is never reset more often than it had events, and one that waits has an event to spare. */
  lemma ResetsDoNotOutnumberEvents(ss: seq<State>, steps: seq<Step>, i: nat, x: string)
    requires Run(ss, steps) && i <= |steps|
    ensures Count(ss[i].resets, x) <= Count(ss[i].events, x)
    ensures ss[i].running && x in ss[i].updated ==> Count(ss[i].resets, x) < Count(ss[i].events, x)
  {
    ReachableIsGood(ss, steps, i);
  }

  predicate NoneFails(services: set<string>, failing: set<string>)
  {
    forall x | x in services :: x !in failing
  }

  predicate Resets(s: State, a: Step, x: string)
  {
    a.Tick? && x in s.updated
  }

  /** After an event the service waits until it is reset or the loop ends. */
  lemma {:induction false} WaitsUntilReset(ss: seq<State>, steps: seq<Step>, i: nat, j: nat, x: string)
    requires Run(ss, steps) && i < j <= |steps| && steps[i] == Received(x) && ss[j].running
    requires forall m | i < m < j :: !Resets(ss[m], steps[m], x)
    ensures x in ss[j].updated
    decreases j
  {
    assert Follows(ss, steps, j - 1);
    if j > i + 1 {
      WaitsUntilReset(ss, steps, i, j - 1, x);
    }
  }

  /** The service had an event before step `i` and no tick has reset the services since. */
  ghost predicate HadEvent(steps: seq<Step>, i: nat, x: string)
    requires i <= |steps|
  {
    exists m | 0 <= m < i :: steps[m] == Received(x) && forall n | m < n < i :: !steps[n].Tick?
  }

  /** Who waits: exactly the services with an event since the last tick. */
  lemma {:induction false} WaitingExactly(ss: seq<State>, steps: seq<Step>, i: nat, x: string)
    requires Run(ss, steps) && i <= |steps|
    ensures x in ss[i].updated <==> HadEvent(steps, i, x)
    decreases i
  {
    if i > 0 {
      var a := steps[i - 1];
      WaitingExactly(ss, steps, i - 1, x);
      assert Follows(ss, steps, i - 1);
      if a == Received(x) {
        assert HadEvent(steps, i, x);
      } else if HadEvent(steps, i - 1, x) && !a.Tick? {
        var m :| 0 <= m < i - 1 && steps[m] == Received(x) && forall n | m < n < i - 1 :: !steps[n].Tick?;
        assert forall n | m < n < i :: !steps[n].Tick?;
      }
    }
  }

  /** The step is a tick that finds the service waiting, or one that fails after resetting it. */
  ghost predicate ResetAt(steps: seq<Step>, m: nat, x: string)
    requires m < |steps|
  {
    (steps[m].Tick? && HadEvent(steps, m, x)) || (steps[m].TickFails? && x in steps[m].done)
  }

  /** The steps before `i` that reset the service, and those that brought an event for it. */
  ghost function ResetTimes(steps: seq<Step>, i: nat, x: string): set<nat>
    requires i <= |steps|
  {
    set m: nat | m < i && ResetAt(steps, m, x)
  }

  function EventTimes(steps: seq<Step>, i: nat, x: string): set<nat>
    requires i <= |steps|
  {
    set m: nat | m < i && steps[m] == Received(x)
  }

  lemma EventTimesGrow(steps: seq<Step>, i: nat, x: string)
    requires i < |steps|
    ensures |EventTimes(steps, i + 1, x)| == |EventTimes(steps, i, x)| + if steps[i] == Received(x) then 1 else 0
  {
    assert EventTimes(steps, i + 1, x) == EventTimes(steps, i, x) + if steps[i] == Received(x) then {i} else {};
  }

  lemma ResetTimesGrow(steps: seq<Step>, i: nat, x: string)
    requires i < |steps|
    ensures |ResetTimes(steps, i + 1, x)| == |ResetTimes(steps, i, x)| + if ResetAt(steps, i, x) then 1 else 0
  {
    assert ResetTimes(steps, i + 1, x) == ResetTimes(steps, i, x) + if ResetAt(steps, i, x) then {i} else {};
  }

  lemma {:induction false} EventsCounted(ss: seq<State>, steps: seq<Step>, i: nat, x: string)
    requires Run(ss, steps) && i <= |steps|
    ensures Count(ss[i].events, x) == |EventTimes(steps, i, x)|
    decreases i
  {
    if i == 0 {
      assert EventTimes(steps, 0, x) == {};
    } else {
      EventsCounted(ss, steps, i - 1, x);
      EventTimesGrow(steps, i - 1, x);
      assert Follows(ss, steps, i - 1);
      if steps[i - 1].Received? {
        BumpCounts(ss[i - 1].events, {steps[i - 1].service}, x);
      }
    }
  }

  /** What a step adds to the resets of a service. */
  lemma ResetsMove(s: State, a: Step, x: string)
    requires Enabled(s, a)
    ensures Count(Next(s, a).resets, x) ==
            Count(s.resets, x) + if (a.Tick? && x in s.updated) || (a.TickFails? && x in a.done) then 1 else 0
  {
    if a.Tick? {
      BumpCounts(s.resets, s.updated, x);
    } else if a.TickFails? {
      BumpCounts(s.resets, a.done, x);
    }
  }

  lemma ResetStep(ss: seq<State>, steps: seq<Step>, i: nat, x: string)
    requires Run(ss, steps) && i < |steps|
    ensures Count(ss[i + 1].resets, x) == Count(ss[i].resets, x) + if ResetAt(steps, i, x) then 1 else 0
  {
    assert Follows(ss, steps, i);
    WaitingExactly(ss, steps, i, x);
    ResetsMove(ss[i], steps[i], x);
  }

  lemma {:induction false} ResetsCounted(ss: seq<State>, steps: seq<Step>, i: nat, x: string)
    requires Run(ss, steps) && i <= |steps|
    ensures Count(ss[i].resets, x) == |ResetTimes(steps, i, x)|
    decreases i
  {
    if i == 0 {
      assert ResetTimes(steps, 0, x) == {};
    } else {
      ResetsCounted(ss, steps, i - 1, x);
      ResetTimesGrow(steps, i - 1, x);
      ResetStep(ss, steps, i - 1, x);
    }
  }

  /** The two counts: one for each event, and one for each tick that found the service waiting. */
  lemma CountsExactly(ss: seq<State>, steps: seq<Step>, i: nat, x: string)
    requires Run(ss, steps) && i <= |steps|
    ensures Count(ss[i].events, x) == |EventTimes(steps, i, x)|
    ensures Count(ss[i].resets, x) == |ResetTimes(steps, i, x)|
  {
    EventsCounted(ss, steps, i, x);
    ResetsCounted(ss, steps, i, x);
  }

  // Ticks that come too early

  /** The step empties the timer's channel. */
  predicate Drains(a: Step)
  {
    a.Tick? || a.TickFails?
  }

  /** A tick lies in the channel exactly when the timer has run out since the last tick was received. */
  lemma {:induction false} TickedExactly(ss: seq<State>, steps: seq<Step>, i: nat)
    requires Run(ss, steps) && i <= |steps|
    ensures ss[i].ticked <==> exists m | 0 <= m < i :: steps[m].Fire? && forall n | m < n < i :: !Drains(steps[n])
    decreases i
  {
    if i > 0 {
      TickedExactly(ss, steps, i - 1);
      assert Follows(ss, steps, i - 1);
      if !steps[i - 1].Fire? && ss[i].ticked {
        var m :| 0 <= m < i - 1 && steps[m].Fire? && forall n | m < n < i - 1 :: !Drains(steps[n]);
        assert forall n | m < n < i :: !Drains(steps[n]);
      }
    }
  }

  lemma {:induction false} ChannelIsUntouched(ss: seq<State>, steps: seq<Step>, i: nat, j: nat)
    requires Run(ss, steps) && i <= j <= |steps|
    requires forall m | i <= m < j :: !steps[m].Fire? && !Drains(steps[m])
    ensures ss[j].ticked == ss[i].ticked
    decreases j
  {
    if j > i {
      ChannelIsUntouched(ss, steps, i, j - 1);
      assert Follows(ss, steps, j - 1);
    }
  }

  /**
   Debouncing, exactly: after an event, and before the timer it restarted has run out, the service
   can be reset exactly when a tick lay in the channel at the time of the event.
   */
  lemma EarlyResetExactly(ss: seq<State>, steps: seq<Step>, i: nat, j: nat, x: string)
    requires Run(ss, steps) && i < j <= |steps| && steps[i] == Received(x) && ss[j].running
    requires forall m | i < m < j :: !steps[m].Fire? && !Drains(steps[m])
    ensures Enabled(ss[j], Tick) && Resets(ss[j], Tick, x) <==> ss[i].ticked
  {
    assert Follows(ss, steps, i);
    ChannelIsUntouched(ss, steps, i + 1, j);
    WaitsUntilReset(ss, steps, i, j, x);
  }

  /** A stale tick: an event that comes after the timer ran out is reset without waiting for the interval. */
  lemma StaleTick(x: string, y: string) returns (ss: seq<State>, steps: seq<Step>)
    requires x != y
    ensures Run(ss, steps) && |steps| == 4
    ensures steps == [Received(x), Fire, Received(y), Tick]
    ensures ss[3].armed && ss[3].updated == {x, y} && Resets(ss[3], steps[3], y)
  {
    steps := [Received(x), Fire, Received(y), Tick];
    var s0 := State(true, {}, true, false, map[], map[]);
    var s1 := Next(s0, Received(x));
    var s2 := Next(s1, Fire);
    var s3 := Next(s2, Received(y));
    ss := [s0, s1, s2, s3, Next(s3, Tick)];
    forall i | 0 <= i < |steps| ensures Follows(ss, steps, i) {
      assert i == 0 || i == 1 || i == 2 || i == 3;
    }
  }

  lemma Extend(ss: seq<State>, steps: seq<Step>, a: Step)
    requires Run(ss, steps) && Enabled(ss[|steps|], a)
    ensures Run(ss + [Next(ss[|steps|], a)], steps + [a])
  {
    var ss', steps' := ss + [Next(ss[|steps|], a)], steps + [a];
    forall i | 0 <= i < |steps'| ensures Follows(ss', steps', i) {
      if i < |steps| {
        assert Follows(ss, steps, i);
      }
    }
  }

  /** The loop of `Serve`: the map of services and the timer, and one method per case of its select. */
  class Loop {
    var updated: set<string>
    var armed: bool
    var ticked: bool
    var running: bool
    ghost var ss: seq<State>
    ghost var steps: seq<Step>

    /** What was done to the object so far is a run, and the object is where that run ends. */
    ghost predicate Valid()
      reads this
    {
      Run(ss, steps) && Shows(ss[|steps|])
    }

    ghost predicate Shows(s: State)
      reads this
    {
      s.running == running && s.updated == updated && s.armed == armed && s.ticked == ticked
    }

    constructor ()
      ensures Valid() && steps == [] && running
    {
      updated, armed, ticked, running := {}, true, false, true;
      ss, steps := [State(true, {}, true, false, map[], map[])], [];
    }

    ghost method Record(a: Step)
      requires Run(ss, steps) && Enabled(ss[|steps|], a) && Shows(Next(ss[|steps|], a))
      modifies `ss, `steps
      ensures Valid() && steps == old(steps) + [a] && ss == old(ss) + [Next(old(ss[|steps|]), a)]
    {
      Extend(ss, steps, a);
      ss, steps := ss + [Next(ss[|steps|], a)], steps + [a];
    }

    /** The event case: the service waits, and a tick is sure to come. */
    method OnEvent(service: string)
      requires Valid() && running
      modifies this
      ensures Valid() && steps == old(steps) + [Received(service)]
      ensures running && updated == old(updated) + {service}
      ensures Count(ss[|steps|].events, service) == Count(old(ss[|steps|]).events, service) + 1
      ensures Enabled(ss[|steps|], Fire) && (old(ticked) <==> Enabled(ss[|steps|], Tick))
    {
      armed := false;
      updated := updated + {service};
      armed := true;
      Record(Received(service));
    }

    /** The timer runs out. */
    method OnFire()
      requires Valid() && running && armed
      modifies this
      ensures Valid() && steps == old(steps) + [Fire] && Enabled(ss[|steps|], Tick) && updated == old(updated)
    {
      armed, ticked := false, true;
      Record(Fire);
    }

    /** The services gathered are reset in any order, until one of them fails. */
    method ResetAll(failing: set<string>) returns (ok: bool, done: set<string>)
      ensures NoneFails(done, failing)
      ensures if ok then done == updated else done < updated
      ensures ok <==> NoneFails(updated, failing)
    {
      var rest := updated;
      done := {};
      while rest != {}
        invariant rest <= updated && done == updated - rest && NoneFails(done, failing)
        decreases |rest|
      {
        var name :| name in rest;
        if name in failing {
          assert name in updated && name !in done;
          return false, done;
        }
        done := done + {name};
        rest := rest - {name};
      }
      ok := true;
    }

    /** The tick case: all services that wait are reset, or the loop ends at one that fails. */
    method OnTick(failing: set<string>) returns (ok: bool)
      requires Valid() && running && ticked
      modifies this
      ensures Valid() && (ok <==> NoneFails(old(updated), failing)) && running == ok
      ensures ok ==> steps == old(steps) + [Tick] && updated == {}
      ensures !ok ==>
              exists done | done < old(updated) && NoneFails(done, failing) :: steps == old(steps) + [TickFails(done)]
    {
      ticked := false;
      var done;
      ok, done := ResetAll(failing);
      if ok {
        updated := {};
        Record(Tick);
      } else {
        armed := false;
        running := false;
        Record(TickFails(done));
      }
    }

    /** The stop case. */
    method OnStop()
      requires Valid() && running
      modifies this
      ensures Valid() && steps == old(steps) + [Stop] && !running && updated == old(updated)
    {
      armed := false;
      running := false;
      Record(Stop);
    }
  }
}
