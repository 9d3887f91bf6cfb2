/**
 Counting in the BoltDB driver: live jobs are accepted jobs minus acknowledged and overwritten
 ones, the two counters together follow the live jobs of a session modulo 2^64, and what the
 prefetch check makes of that.
 */
module BoltCounts {
  import opened Text
  import opened BoltQueue
  import opened JobTable
  import opened BoltSafety
  import opened BoltRuns

  lemma EvictSize(t: Table, key: string)
    ensures |Evict(t, key)| == |t| - |Holders(t, key)|
  {
    assert Evict(t, key).Keys == t.Keys - Holders(t, key);
    assert Holders(t, key) <= t.Keys;
    assert |t.Keys| == |t.Keys - Holders(t, key)| + |Holders(t, key)|;
  }

  /** A slot has at most one holder, so a step overwrites at most one job. */
  lemma OneHolder(q: Queue, t: Table, key: string)
    requires Sound(q, t)
    ensures |Holders(t, key)| <= 1
  {
    if Holders(t, key) != {} {
      var id :| id in Holders(t, key);
      forall x | x in Holders(t, key) ensures x == id {
        SlotHolder(q, t, x, key);
        SlotHolder(q, t, id, key);
      }
      assert Holders(t, key) == {id};
    }
  }

  lemma SetSize(t: Table, id: string, e: Entry)
    ensures |t[id := e]| == |t| + if id in t then 0 else 1
  {
    assert t[id := e].Keys == t.Keys + {id};
  }

  /** Storing a job adds it unless it was there, and loses the holder of its slot. */
  lemma PutSize(t: Table, j: Job, key: string)
    requires (j.id in t ==> t[j.id].slot == None)
    ensures |Put(t, j, key)| == |t| - Evicted(t, j, key) + if j.id in t then 0 else 1
  {
    if j.delay > 0 {
      EvictSize(t, key);
      SetSize(Evict(t, key), j.id, Entry(j, Some(key)));
    } else {
      SetSize(t, j.id, Entry(j, None));
    }
  }

  lemma InflightEntry(q: Queue, t: Table, h: nat)
    requires Sound(q, t) && h in q.inflight
    ensures q.inflight[h].id in t && t[q.inflight[h].id].slot == None
    ensures t[q.inflight[h].id].job.id == q.inflight[h].id
  {
  }

  lemma SizeChange(q: Queue, t: Table, s: Step)
    requires Sound(q, t) && Possible(q, s) && (s.Push? ==> s.job.id !in t)
    ensures |TableNext(q, t, s)| == |t| + Gained(s) - Lost(q, t, s)
  {
    if s.Ack? || s.Requeue? {
      InflightEntry(q, t, s.h);
      SettledSize(q, t, s);
    } else {
      SizeElsewhere(q, t, s);
    }
  }

  lemma SizeElsewhere(q: Queue, t: Table, s: Step)
    requires Possible(q, s) && (s.Push? ==> s.job.id !in t) && !s.Ack? && !s.Requeue?
    ensures |TableNext(q, t, s)| == |t| + Gained(s) - Lost(q, t, s)
  {
    if s.Push? {
      PutSize(t, s.job, s.key);
    } else if s.Release? && q.delayed[s.key].id in t {
      SetSize(t, q.delayed[s.key].id, t[q.delayed[s.key].id].(slot := None));
    }
  }

  lemma SettledSize(q: Queue, t: Table, s: Step)
    requires Possible(q, s) && (s.Ack? || s.Requeue?) && q.inflight[s.h].id in t
    requires t[q.inflight[s.h].id].slot == None && t[q.inflight[s.h].id].job.id == q.inflight[s.h].id
    ensures |TableNext(q, t, s)| == |t| + Gained(s) - Lost(q, t, s)
  {
    var id := q.inflight[s.h].id;
    if s.Ack? {
      assert (t - {id}).Keys == t.Keys - {id};
    } else {
      PutSize(t, Amended(q.cfg, t[id].job, s.headers, s.delay), s.key);
    }
  }

  /** Live jobs less what the totals say they should be. */
  function Balance(w: World): int
  {
    |w.t| - (w.totals.accepted - w.totals.acked - w.totals.overwritten)
  }

  lemma BalanceKept(w: World, s: Step)
    requires Good(w) && Allowed(w, s)
    ensures Balance(Advance(w, s)) == Balance(w)
  {
    SizeChange(w.q, w.t, s);
  }

  /** Conservation: a live job is an accepted one that was neither acknowledged nor overwritten. */
  lemma {:induction false} LiveJobs(ws: seq<World>, steps: seq<Step>, i: nat)
    requires Run(ws, steps) && i <= |steps|
    ensures |ws[i].t| == ws[i].totals.accepted - ws[i].totals.acked - ws[i].totals.overwritten
    decreases i
  {
    if i > 0 {
      LiveJobs(ws, steps, i - 1);
      ReachableIsGood(ws, steps, i - 1);
      assert Follows(ws, steps, i - 1);
      BalanceKept(ws[i - 1], steps[i - 1]);
    }
  }

  lemma {:induction false} InjectiveImage(m: map<string, Job>, keys: set<string>)
    requires keys <= m.Keys
    requires forall x, y | x in keys && y in keys && m[x].id == m[y].id :: x == y
    ensures |set k | k in keys :: m[k].id| == |keys|
    decreases |keys|
  {
    var image := set k | k in keys :: m[k].id;
    if keys == {} {
      assert image == {};
    } else {
      var k :| k in keys;
      var rest := keys - {k};
      InjectiveImage(m, rest);
      assert image == (set x | x in rest :: m[x].id) + {m[k].id};
    }
  }

  function Slotted(q: Queue): set<string>
  {
    set k | k in q.delayed.Keys :: q.delayed[k].id
  }

  lemma TableKeys(q: Queue, t: Table)
    requires Sound(q, t)
    ensures t.Keys == (q.push.Keys + q.processing.Keys) + Slotted(q)
  {
    forall id | id in t ensures id in q.push || id in q.processing || id in Slotted(q) {
      if t[id].slot.Some? {
        SlotHolder(q, t, id, t[id].slot.value);
      }
    }
  }

  lemma SlotsAreApart(q: Queue, t: Table)
    requires Sound(q, t)
    ensures (q.push.Keys + q.processing.Keys) !! Slotted(q)
    ensures forall x, y | x in q.delayed && y in q.delayed && q.delayed[x].id == q.delayed[y].id :: x == y
  {
  }

  /** Live jobs are what the three buckets hold, a job in both `push` and `processing` counted once. */
  lemma BucketSizes(ws: seq<World>, steps: seq<Step>, i: nat)
    requires Run(ws, steps) && i <= |steps|
    ensures |ws[i].t| == |ws[i].q.push.Keys + ws[i].q.processing.Keys| + |ws[i].q.delayed|
  {
    var q, t := ws[i].q, ws[i].t;
    ReachableIsGood(ws, steps, i);
    TableKeys(q, t);
    SlotsAreApart(q, t);
    InjectiveImage(q.delayed, q.delayed.Keys);
  }

  function Words(n: int): int
  {
    n * WORD
  }

  /** Equal modulo 2^64. */
  ghost predicate Congruent(a: int, b: int)
  {
    exists n :: a == b + Words(n)
  }

  /** What the two counters together should show. */
  function Expected(w: World): int
  {
    |w.t| - w.open.live + w.totals.overwritten - w.open.overwritten
  }

  ghost predicate SessionCount(w: World)
  {
    w.q.active < WORD && w.q.waiting < WORD && Congruent(w.q.active + w.q.waiting, Expected(w))
  }

  lemma UpMoves(c: nat)
    requires c < WORD
    ensures Up(c) < WORD && Up(c) == c + 1 - if c == WORD - 1 then WORD else 0
  {
  }

  lemma DownMoves(c: nat)
    requires c < WORD
    ensures Down(c) < WORD && Down(c) == c - 1 + if c == 0 then WORD else 0
  {
  }

  /** A step moves the sum of the counters by one for a push and back by one for an acknowledgement. */
  lemma CountersChange(q: Queue, s: Step) returns (k: int)
    requires Possible(q, s) && !s.Reopen? && q.active < WORD && q.waiting < WORD
    ensures Next(q, s).active < WORD && Next(q, s).waiting < WORD
    ensures Next(q, s).active + Next(q, s).waiting == q.active + q.waiting + Gained(s) + k
    ensures k == 0 || k == WORD || k == -WORD
  {
    k := 0;
    match s {
      case Push(j, _) =>
        var c := if j.delay > 0 then q.waiting else q.active;
        UpMoves(c);
        k := if c == WORD - 1 then -WORD else 0;
      case Ack(h) =>
        var c := if q.inflight[h].delay > 0 then q.waiting else q.active;
        DownMoves(c);
        k := if c == 0 then WORD else 0;
      case _ =>
    }
  }

  lemma ExpectedChange(w: World, s: Step)
    requires Good(w) && Allowed(w, s)
    ensures Expected(Advance(w, s)) == if s.Reopen? then 0 else Expected(w) + Gained(s)
  {
    SizeChange(w.q, w.t, s);
  }

  lemma CongruentStep(a: int, b: int, g: int, k: int)
    requires Congruent(a, b) && (k == 0 || k == WORD || k == -WORD)
    ensures Congruent(a + g + k, b + g)
  {
    var n :| a == b + Words(n);
    var m := if k == 0 then n else if k == WORD then n + 1 else n - 1;
    assert a + g + k == b + g + Words(m);
  }

  lemma SessionStep(q: Queue, s: Step, e: int)
    requires Possible(q, s) && !s.Reopen? && q.active < WORD && q.waiting < WORD
    requires Congruent(q.active + q.waiting, e)
    ensures Next(q, s).active < WORD && Next(q, s).waiting < WORD
    ensures Congruent(Next(q, s).active + Next(q, s).waiting, e + Gained(s))
  {
    var k := CountersChange(q, s);
    CongruentStep(q.active + q.waiting, e, Gained(s), k);
  }

  lemma SessionKept(w: World, s: Step)
    requires Good(w) && Allowed(w, s) && SessionCount(w)
    ensures SessionCount(Advance(w, s))
  {
    ExpectedChange(w, s);
    if s.Reopen? {
      assert 0 == 0 + Words(0);
    } else {
      SessionStep(w.q, s, Expected(w));
    }
  }

  /**
   The two counters together count the live jobs of the session plus those overwritten in it,
   modulo 2^64, although requeueing makes each of them drift.
   */
  lemma {:induction false} CountersFollowLiveJobs(ws: seq<World>, steps: seq<Step>, i: nat)
    requires Run(ws, steps) && i <= |steps|
    ensures SessionCount(ws[i])
    decreases i
  {
    if i == 0 {
      assert 0 == 0 + Words(0);
    } else {
      CountersFollowLiveJobs(ws, steps, i - 1);
      SessionInRun(ws, steps, i - 1);
    }
  }

  lemma SessionInRun(ws: seq<World>, steps: seq<Step>, i: nat)
    requires Run(ws, steps) && i < |steps| && SessionCount(ws[i])
    ensures SessionCount(ws[i + 1])
  {
    ReachableIsGood(ws, steps, i);
    assert Follows(ws, steps, i);
    SessionKept(ws[i], steps[i]);
  }
}
