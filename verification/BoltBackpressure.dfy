/**
 The prefetch check of the BoltDB listener.

 In a session that is opened without immediate jobs the `active` counter counts them exactly, and
 the check bounds the immediate jobs in flight.  In a session that recovers a backlog the counter
 starts too low, drops below zero as soon as the backlog shrinks, and the check then stops the
 listener while jobs are still waiting.
 */
module BoltBackpressure {
  import opened Text
  import Sets
  import opened BoltQueue
  import opened JobTable
  import opened BoltSafety
  import opened BoltRuns
  import opened BoltCounts

  /** Until a requeue, items in flight carry exactly the stored record. */
  ghost predicate Faithful(q: Queue, t: Table)
  {
    FaithfulTo(q.inflight, t)
  }

  ghost predicate FaithfulTo(inflight: map<nat, Job>, t: Table)
  {
    forall h | h in inflight :: inflight[h].id in t && inflight[h].delay == t[inflight[h].id].job.delay
  }

  /** What a step adds to the immediate jobs, as the counter sees it. */
  function ImmediateGain(q: Queue, s: Step): int
    requires Possible(q, s)
  {
    match s
    case Push(j, _) => if j.delay > 0 then 0 else 1
    case Ack(h) => if q.inflight[h].delay > 0 then 0 else -1
    case _ => 0
  }

  lemma PushImmediate(t: Table, j: Job, key: string)
    requires Keyed(t) && j.id !in t
    ensures Immediate(Put(t, j, key)) == Immediate(t) + if j.delay > 0 then {} else {j.id}
  {
  }

  lemma AckImmediate(t: Table, id: string)
    requires id in t
    ensures Immediate(t - {id}) == Immediate(t) - {id}
  {
  }

  lemma ReleaseImmediate(t: Table, id: string)
    requires id in t
    ensures Immediate(t[id := t[id].(slot := None)]) == Immediate(t)
  {
  }

  lemma RequeueImmediate(t: Table, j: Job, key: string)
    requires Keyed(t) && j.id in t
    ensures Immediate(Put(t, j, key)) == (Immediate(t) - {j.id}) + if j.delay > 0 then {} else {j.id}
  {
  }

  /** Whatever the step, the immediate jobs change by what the counter sees less the drift. */
  lemma ImmediateChange(q: Queue, t: Table, s: Step)
    requires Sound(q, t) && Possible(q, s) && (s.Push? ==> s.job.id !in t)
    ensures |Immediate(TableNext(q, t, s))| == |Immediate(t)| + ImmediateGain(q, s) - DriftBy(q, t, s)
  {
    if s.Ack? || s.Requeue? {
      InflightEntry(q, t, s.h);
      SettledImmediate(q, t, s);
    } else {
      ImmediateElsewhere(q, t, s);
    }
  }

  lemma ImmediateElsewhere(q: Queue, t: Table, s: Step)
    requires Keyed(t) && Possible(q, s) && (s.Push? ==> s.job.id !in t) && !s.Ack? && !s.Requeue?
    ensures |Immediate(TableNext(q, t, s))| == |Immediate(t)| + ImmediateGain(q, s) && DriftBy(q, t, s) == 0
  {
    if s.Push? {
      PushImmediate(t, s.job, s.key);
    } else if s.Release? && q.delayed[s.key].id in t {
      ReleaseImmediate(t, q.delayed[s.key].id);
    }
  }

  lemma SettledImmediate(q: Queue, t: Table, s: Step)
    requires Keyed(t) && Possible(q, s) && (s.Ack? || s.Requeue?) && q.inflight[s.h].id in t
    requires t[q.inflight[s.h].id].job.id == q.inflight[s.h].id
    ensures |Immediate(TableNext(q, t, s))| == |Immediate(t)| + ImmediateGain(q, s) - DriftBy(q, t, s)
  {
    if s.Ack? {
      AckImmediate(t, q.inflight[s.h].id);
    } else {
      RequeuedImmediate(q, t, s);
    }
  }

  lemma RequeuedImmediate(q: Queue, t: Table, s: Step)
    requires Keyed(t) && Possible(q, s) && s.Requeue? && q.inflight[s.h].id in t
    requires t[q.inflight[s.h].id].job.id == q.inflight[s.h].id
    ensures |Immediate(TableNext(q, t, s))| == |Immediate(t)| - DriftBy(q, t, s)
  {
    var id := q.inflight[s.h].id;
    RequeueImmediate(t, Amended(q.cfg, t[id].job, s.headers, s.delay), s.key);
  }

  lemma HandOutFaithful(q: Queue, t: Table, j: Job)
    requires Faithful(q, t) && j.id in t && t[j.id].job == j
    ensures Faithful(HandOut(q, j), t)
  {
  }

  lemma AckFaithful(q: Queue, t: Table, h: nat)
    requires HandedOut(q, t) && Faithful(q, t) && h in q.inflight
    ensures Faithful(Removed(q, h), t - {q.inflight[h].id})
  {
  }

  lemma ReleaseFaithful(q: Queue, t: Table, k: string)
    requires Owed(q, t) && Faithful(q, t) && k in q.delayed
    ensures Faithful(DoRelease(q, k), t[q.delayed[k].id := t[q.delayed[k].id].(slot := None)])
  {
    var j := q.delayed[k];
    HandOutFaithful(q.(delayed := q.delayed - {k}), t[j.id := Entry(j, None)], j);
  }

  lemma FaithfulKept(q: Queue, t: Table, s: Step)
    requires Sound(q, t) && Faithful(q, t) && Possible(q, s) && (s.Push? ==> s.job.id !in t) && !Requeues(q, s)
    ensures Faithful(Next(q, s), TableNext(q, t, s))
  {
    match s {
      case Push(j, key) => PushFaithful(q, t, j, key);
      case Take(k) => HandOutFaithful(q.(push := q.push - {k}, checked := q.checked - 1), t, q.push[k]);
      case Release(k) => ReleaseFaithful(q, t, k);
      case Ack(h) => AckFaithful(q, t, h);
      case _ =>
    }
  }

  lemma PushFaithful(q: Queue, t: Table, j: Job, key: string)
    requires Sound(q, t) && Faithful(q, t) && j.id !in t
    ensures Faithful(DoPush(q, j, key), Put(t, j, key))
  {
    forall h | h in q.inflight
      ensures q.inflight[h].id in Put(t, j, key) && Put(t, j, key)[q.inflight[h].id] == t[q.inflight[h].id]
    {
      InflightEntry(q, t, h);
      PutKeepsOthers(t, j, key, q.inflight[h].id);
    }
  }

  /** How far the immediate jobs are above the number the session was opened with. */
  function Surplus(w: World): int
  {
    |Immediate(w.t)| - w.open.immediate
  }

  /** What `active` shows, before it is cut to 64 bits. */
  function Level(w: World): int
  {
    Surplus(w) + w.open.drift
  }

  ghost predicate ActiveCount(w: World)
  {
    w.q.active < WORD && Congruent(w.q.active, Level(w))
  }

  /** Without a requeue there is no drift, and items carry the stored delay. */
  ghost predicate Undisturbed(w: World)
  {
    !w.open.requeued ==> w.open.drift == 0 && Faithful(w.q, w.t)
  }

  lemma ActiveChange(q: Queue, s: Step, e: int)
    requires Possible(q, s) && !s.Reopen? && q.active < WORD && Congruent(q.active, e)
    ensures Next(q, s).active < WORD && Congruent(Next(q, s).active, e + ImmediateGain(q, s))
  {
    var c := q.active;
    ActiveMoves(q, s);
    UpMoves(c);
    DownMoves(c);
    CongruentStep(c, e, 0, 0);
    CongruentStep(c, e, 1, if c == WORD - 1 then -WORD else 0);
    CongruentStep(c, e, -1, if c == 0 then WORD else 0);
  }

  lemma ActiveMoves(q: Queue, s: Step)
    requires Possible(q, s) && !s.Reopen?
    ensures Next(q, s).active ==
            if ImmediateGain(q, s) == 1 then Up(q.active) else if ImmediateGain(q, s) == -1 then Down(q.active)
            else q.active
  {
  }

  /** The level moves with the counter. */
  lemma LevelChange(w: World, s: Step)
    requires Good(w) && Allowed(w, s)
    ensures Level(Advance(w, s)) == if s.Reopen? then 0 else Level(w) + ImmediateGain(w.q, s)
  {
    ImmediateChange(w.q, w.t, s);
  }

  lemma ActiveKept(w: World, s: Step)
    requires Good(w) && Allowed(w, s) && ActiveCount(w)
    ensures ActiveCount(Advance(w, s))
  {
    LevelChange(w, s);
    if s.Reopen? {
      assert 0 == 0 + Words(0);
    } else {
      ActiveChange(w.q, s, Level(w));
    }
  }

  lemma NoDrift(q: Queue, t: Table, s: Step)
    requires Sound(q, t) && Faithful(q, t) && Possible(q, s) && !Requeues(q, s)
    ensures DriftBy(q, t, s) == 0
  {
  }

  lemma UndisturbedKept(w: World, s: Step)
    requires Good(w) && Allowed(w, s) && Undisturbed(w)
    ensures Undisturbed(Advance(w, s))
  {
    if !s.Reopen? && !w.open.requeued && !Requeues(w.q, s) {
      NoDrift(w.q, w.t, s);
      FaithfulKept(w.q, w.t, s);
    }
  }

  /** `active` is the surplus of immediate jobs plus the drift, modulo 2^64, and without a requeue there is none. */
  lemma {:induction false} ActiveIsTheSurplus(ws: seq<World>, steps: seq<Step>, i: nat)
    requires Run(ws, steps) && i <= |steps|
    ensures ActiveCount(ws[i]) && Undisturbed(ws[i])
    decreases i
  {
    if i == 0 {
      assert 0 == 0 + Words(0);
    } else {
      ActiveIsTheSurplus(ws, steps, i - 1);
      ReachableIsGood(ws, steps, i - 1);
      assert Follows(ws, steps, i - 1);
      ActiveKept(ws[i - 1], steps[i - 1]);
      UndisturbedKept(ws[i - 1], steps[i - 1]);
    }
  }

  lemma SmallCongruent(a: int, b: int)
    requires Congruent(a, b) && 0 <= a < WORD && -WORD <= b < WORD
    ensures a == if b < 0 then b + WORD else b
  {
    var n :| a == b + Words(n);
    assert n == 0 || n == 1;
  }

  /**
   The listener passes its check exactly while the immediate jobs, with the drift of requeues, number
   at least as many as at the start of the session and at most `prefetch` more.
   */
  lemma CheckPassesExactly(ws: seq<World>, steps: seq<Step>, i: nat)
    requires Run(ws, steps) && i <= |steps|
    requires ws[i].q.cfg.prefetch - WORD < Level(ws[i]) < WORD
    ensures Possible(ws[i].q, Check) <==>
            0 <= Level(ws[i]) <= ws[i].q.cfg.prefetch && ws[i].q.checked < ws[i].q.cfg.listeners
    ensures !ws[i].open.requeued ==> Level(ws[i]) == Surplus(ws[i])
  {
    ActiveIsTheSurplus(ws, steps, i);
    SmallCongruent(ws[i].q.active, Level(ws[i]));
  }

  /** The same, of the last state of a run and of the comparison alone. */
  lemma CheckPassesIfLevel(ws: seq<World>, steps: seq<Step>)
    requires Run(ws, steps)
    ensures var w := ws[|steps|];
            w.q.cfg.prefetch - WORD < Level(w) < WORD ==>
            (w.q.active <= w.q.cfg.prefetch <==> 0 <= Level(w) <= w.q.cfg.prefetch)
  {
    var w := ws[|steps|];
    ActiveIsTheSurplus(ws, steps, |steps|);
    if w.q.cfg.prefetch - WORD < Level(w) < WORD {
      SmallCongruent(w.q.active, Level(w));
    }
  }

  /** Items in flight that never waited for a delay. */
  function Running(q: Queue): set<nat>
  {
    Undelayed(q.inflight)
  }

  function Undelayed(items: map<nat, Job>): set<nat>
  {
    set h | h in items && items[h].delay <= 0
  }

  lemma {:induction false} DistinctItems(q: Queue, hs: set<nat>, ids: set<string>)
    requires hs <= q.inflight.Keys
    requires forall h | h in hs :: q.inflight[h].id in ids
    requires forall h, g | h in hs && g in hs && q.inflight[h].id == q.inflight[g].id :: h == g
    ensures |hs| <= |ids|
    decreases |hs|
  {
    if hs != {} {
      var h :| h in hs;
      DistinctItems(q, hs - {h}, ids - {q.inflight[h].id});
    }
  }

  lemma RunningAreImmediate(q: Queue, t: Table)
    requires Sound(q, t) && Faithful(q, t)
    ensures |Running(q)| <= |Immediate(t)|
  {
    DistinctItems(q, Running(q), Immediate(t));
  }

  /** No more immediate jobs in flight, counting those about to be taken, than the settings allow. */
  predicate Throttled(q: Queue)
  {
    q.checked <= q.cfg.listeners && |Running(q)| + q.checked <= q.cfg.prefetch + q.cfg.listeners
  }

  lemma RemovalShrinks(q: Queue, q': Queue)
    requires q'.inflight.Keys <= q.inflight.Keys && forall h | h in q'.inflight :: q'.inflight[h] == q.inflight[h]
    ensures |Running(q')| <= |Running(q)|
  {
    assert Running(q') <= Running(q);
    Sets.SubsetSize(Running(q'), Running(q));
  }

  lemma HandOutGrows(q: Queue, j: Job)
    requires Fresh(q)
    ensures |Running(HandOut(q, j))| <= |Running(q)| + 1
    ensures j.delay > 0 ==> |Running(HandOut(q, j))| <= |Running(q)|
  {
    var q' := HandOut(q, j);
    if j.delay > 0 {
      assert Running(q') == Running(q);
    } else {
      assert Running(q') == Running(q) + {q.next};
    }
  }

  lemma ThrottledHandOut(q: Queue, s: Step)
    requires Fresh(q) && Possible(q, s) && (s.Take? || s.Release?) && Throttled(q)
    requires s.Release? ==> q.delayed[s.key].delay > 0
    ensures Throttled(Next(q, s))
  {
    if s.Take? {
      HandOutGrows(q.(push := q.push - {s.key}, checked := q.checked - 1), q.push[s.key]);
    } else {
      HandOutGrows(q.(delayed := q.delayed - {s.key}), q.delayed[s.key]);
    }
  }

  lemma ThrottledElsewhere(q: Queue, s: Step)
    requires Possible(q, s) && Throttled(q) && !s.Take? && !s.Release? && !s.Check? && !Requeues(q, s)
    ensures Throttled(Next(q, s))
  {
    InflightShrinks(q, s);
    RemovalShrinks(q, Next(q, s));
  }

  lemma InflightShrinks(q: Queue, s: Step)
    requires Possible(q, s) && !s.Take? && !s.Release? && !Requeues(q, s)
    ensures Next(q, s).inflight.Keys <= q.inflight.Keys
    ensures forall h | h in Next(q, s).inflight :: Next(q, s).inflight[h] == q.inflight[h]
  {
  }

  lemma ThrottledKept(q: Queue, t: Table, s: Step)
    requires Sound(q, t) && Faithful(q, t) && Possible(q, s) && !Requeues(q, s) && Throttled(q)
    requires q.active == |Immediate(t)|
    ensures Throttled(Next(q, s))
  {
    if s.Check? {
      RunningAreImmediate(q, t);
    } else if s.Take? || s.Release? {
      ThrottledHandOut(q, s);
    } else {
      ThrottledElsewhere(q, s);
    }
  }

  /** The session began without immediate jobs and nothing has been requeued in it. */
  predicate CleanSession(w: World)
  {
    w.open.immediate == 0 && !w.open.requeued
  }

  /**
   Backpressure: in a session that began without immediate jobs, and until a requeue, the
   immediate jobs in flight number at most the prefetch limit plus one per listener, although
   pushes may land between a listener's check and its transaction.
   */
  lemma {:induction false} Backpressure(ws: seq<World>, steps: seq<Step>, i: nat)
    requires Run(ws, steps) && i <= |steps| && CleanSession(ws[i])
    requires forall m | 0 <= m <= i :: |Immediate(ws[m].t)| < WORD
    ensures Throttled(ws[i].q)
    decreases i
  {
    if i == 0 {
      assert Running(ws[0].q) == {};
    } else {
      assert Follows(ws, steps, i - 1);
      if steps[i - 1].Reopen? {
        assert Running(ws[i].q) == {};
      } else {
        Backpressure(ws, steps, i - 1);
        CleanStep(ws, steps, i - 1);
      }
    }
  }

  lemma CleanStep(ws: seq<World>, steps: seq<Step>, i: nat)
    requires Run(ws, steps) && i < |steps| && CleanSession(ws[i + 1]) && !steps[i].Reopen?
    requires |Immediate(ws[i].t)| < WORD && Throttled(ws[i].q)
    ensures Throttled(ws[i + 1].q)
  {
    assert Follows(ws, steps, i);
    assert !Requeues(ws[i].q, steps[i]) && CleanSession(ws[i]);
    ReachableIsGood(ws, steps, i);
    ActiveIsTheSurplus(ws, steps, i);
    SmallCongruent(ws[i].q.active, |Immediate(ws[i].t)|);
    ThrottledKept(ws[i].q, ws[i].t, steps[i]);
  }

  /** The listener is at rest, and the counter has gone below zero and shows a huge number. */
  predicate Stalled(w: World)
  {
    w.q.checked == 0 && Level(w) < 0
  }

  /** The steps that raise the counter, or start it anew. */
  predicate Relieves(s: Step)
  {
    s.Reopen? || (s.Push? && s.job.delay <= 0)
  }

  lemma ListenerRests(q: Queue, s: Step)
    requires q.checked == 0 && !Possible(q, Check) && Possible(q, s) && !s.Reopen?
    ensures !s.Take? && !s.Check? && Next(q, s).checked == 0
  {
  }

  lemma SettingsStay(q: Queue, s: Step)
    requires Possible(q, s)
    ensures Next(q, s).cfg == q.cfg
  {
  }

  lemma GainIsSmall(q: Queue, s: Step)
    requires Possible(q, s) && !Relieves(s)
    ensures -1 <= ImmediateGain(q, s) <= 0
  {
  }

  lemma StalledStep(ws: seq<World>, steps: seq<Step>, i: nat)
    requires Run(ws, steps) && i < |steps| && Stalled(ws[i]) && !Relieves(steps[i])
    requires ws[i].q.cfg.prefetch - WORD < Level(ws[i])
    ensures !steps[i].Take? && !steps[i].Check? && Stalled(ws[i + 1])
    ensures Level(ws[i + 1]) >= Level(ws[i]) - 1 && ws[i + 1].q.cfg == ws[i].q.cfg
  {
    CheckPassesExactly(ws, steps, i);
    LevelInRun(ws, steps, i);
    ListenerRests(ws[i].q, steps[i]);
    SettingsStay(ws[i].q, steps[i]);
    GainIsSmall(ws[i].q, steps[i]);
  }

  lemma LevelInRun(ws: seq<World>, steps: seq<Step>, i: nat)
    requires Run(ws, steps) && i < |steps|
    ensures Possible(ws[i].q, steps[i]) && ws[i + 1].q == Next(ws[i].q, steps[i])
    ensures Level(ws[i + 1]) == if steps[i].Reopen? then 0 else Level(ws[i]) + ImmediateGain(ws[i].q, steps[i])
  {
    assert Follows(ws, steps, i);
    ReachableIsGood(ws, steps, i);
    LevelChange(ws[i], steps[i]);
  }

  /**
   Starvation: once the level is below zero the listener takes no job from the push bucket, however
   many wait there and however many items are requeued, until an immediate job is pushed or the
   database is reopened.  (A run of 2^64 steps could wrap the counter a second time.)
   */
  lemma {:induction false} RecoveredBacklogStarves(ws: seq<World>, steps: seq<Step>, i: nat, j: nat)
    requires Run(ws, steps) && i <= j < |steps| && Stalled(ws[i])
    requires ws[i].q.cfg.prefetch - WORD < Level(ws[i]) - (j - i)
    requires forall m | i <= m <= j :: !Relieves(steps[m])
    ensures !steps[j].Take? && !steps[j].Check? && Stalled(ws[j])
    ensures Level(ws[j]) >= Level(ws[i]) - (j - i) && ws[j].q.cfg == ws[i].q.cfg
    decreases j
  {
    if j > i {
      RecoveredBacklogStarves(ws, steps, i, j - 1);
      StalledStep(ws, steps, j - 1);
    }
    StalledStep(ws, steps, j);
  }

  /** Fewer immediate jobs than the session began with: that is enough, if nothing was requeued. */
  lemma ShrunkenBacklogStalls(ws: seq<World>, steps: seq<Step>, i: nat)
    requires Run(ws, steps) && i <= |steps| && ws[i].q.checked == 0 && !ws[i].open.requeued
    ensures Stalled(ws[i]) <==> |Immediate(ws[i].t)| < ws[i].open.immediate
  {
    ActiveIsTheSurplus(ws, steps, i);
  }

  const BOTH: map<string, Job> := map["a" := Plain("a"), "b" := Plain("b")]
  const BOTH_OWED: Table := map["a" := Entry(Plain("a"), None), "b" := Entry(Plain("b"), None)]

  lemma TwoPushes(cfg: Config) returns (ws: seq<World>, steps: seq<Step>)
    ensures Run(ws, steps) && |steps| == 2
    ensures ws[2].q == Queue(cfg, BOTH, map[], map[], {}, map[], map[], 0, 0, 2, 0) && ws[2].t == BOTH_OWED
  {
    var w := NewDatabase(cfg);
    ws, steps := [w], [];
    var s := Push(Plain("a"), "");
    Extend(ws, steps, s);
    w := Advance(w, s);
    ws, steps := ws + [w], steps + [s];
    s := Push(Plain("b"), "");
    Extend(ws, steps, s);
    w := Advance(w, s);
    ws, steps := ws + [w], steps + [s];
  }

  lemma ReopenAndCheck(cfg: Config) returns (ws: seq<World>, steps: seq<Step>)
    requires cfg.listeners > 0
    ensures Run(ws, steps) && |steps| == 4 && ws[4].open == Opening(2, 2, ws[4].open.overwritten, false, 0)
    ensures ws[4].q == Queue(cfg, BOTH, map[], map[], {}, map[], map[], 0, 1, 0, 0) && ws[4].t == BOTH_OWED
  {
    ws, steps := TwoPushes(cfg);
    assert Immediate(BOTH_OWED) == {"a", "b"} && BOTH_OWED.Keys == {"a", "b"};
    var w := Advance(ws[2], Reopen(true));
    assert w.q == Queue(cfg, BOTH, map[], map[], {}, map[], map[], 0, 0, 0, 0);
    Extend(ws, steps, Reopen(true));
    ws, steps := ws + [w], steps + [Reopen(true)];
    Extend(ws, steps, Check);
    ws, steps := ws + [Advance(w, Check)], steps + [Check];
  }

  lemma FirstIsTaken(q: Queue)
    requires q == Queue(q.cfg, BOTH, map[], map[], {}, map[], map[], 0, 1, 0, 0)
    ensures Possible(q, Take("a"))
    ensures Next(q, Take("a")) ==
            Queue(q.cfg, map["b" := Plain("b")], map["a" := Plain("a")], map[], {}, map[0 := Plain("a")], map[],
                  1, 0, 0, 0)
  {
    assert Less("a", "b") && IsFirst(q.push, "a");
    assert BOTH - {"a"} == map["b" := Plain("b")];
  }

  lemma ReopenAndTake(cfg: Config) returns (ws: seq<World>, steps: seq<Step>)
    requires cfg.listeners > 0
    ensures Run(ws, steps) && |steps| == 5 && ws[5].open == Opening(2, 2, ws[5].open.overwritten, false, 0)
    ensures ws[5].q ==
            Queue(cfg, map["b" := Plain("b")], map["a" := Plain("a")], map[], {}, map[0 := Plain("a")], map[],
                  1, 0, 0, 0)
    ensures ws[5].t == BOTH_OWED
  {
    ws, steps := ReopenAndCheck(cfg);
    FirstIsTaken(ws[4].q);
    Extend(ws, steps, Take("a"));
    ws, steps := ws + [Advance(ws[4], Take("a"))], steps + [Take("a")];
  }

  /** Two jobs are pushed, the database is reopened, and the first is taken and acknowledged. */
  lemma StarvationHappens(cfg: Config) returns (ws: seq<World>, steps: seq<Step>)
    requires cfg.listeners > 0
    ensures Run(ws, steps) && |ws| == |steps| + 1
    ensures Stalled(ws[|steps|]) && Level(ws[|steps|]) == -1 && ws[|steps|].q.push == map["b" := Plain("b")]
  {
    ws, steps := ReopenAndTake(cfg);
    var w := Advance(ws[5], Ack(0));
    assert w.t == map["b" := Entry(Plain("b"), None)] && Immediate(w.t) == {"b"};
    Extend(ws, steps, Ack(0));
    ws, steps := ws + [w], steps + [Ack(0)];
  }
}
