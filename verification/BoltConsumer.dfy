/**
 The BoltDB consumer and its items as an object: the fields the source updates in place, the loops it
 runs over the buckets, and methods that continue a run of the state machine.  Whatever is called on a
 consumer, in whatever order, is a run, so all that is proved of runs holds of the object.
 */
module BoltConsumer {
  import opened Text
  import opened Calendar
  import opened BoltQueue
  import opened BoltRelease
  import opened JobTable
  import opened BoltSafety
  import opened BoltRuns
  import opened BoltItems
  import BoltBackpressure

  /** No bucket holds the job. */
  predicate Nowhere(q: Queue, id: string)
  {
    id !in q.push && id !in q.processing && forall k | k in q.delayed :: q.delayed[k].id != id
  }

  class Consumer {
    const cfg: Config
    var push: map<string, Job>
    var processing: map<string, Job>
    var delayed: map<string, Job>
    var blanks: set<string>
    var inflight: map<nat, Job>
    var stale: map<nat, Job>
    var next: nat
    var checked: nat
    var active: nat
    var waiting: nat
    ghost var ws: seq<World>      // the run so far
    ghost var steps: seq<Step>

    function View(): Queue
      reads this
    {
      Queue(cfg, push, processing, delayed, blanks, inflight, stale, next, checked, active, waiting)
    }

    /** The object is where its run has come to. */
    ghost predicate Valid()
      reads this
    {
      Run(ws, steps) && ws[|steps|].q == View()
    }

    ghost function Here(): World
      requires |ws| == |steps| + 1
      reads this
    {
      ws[|steps|]
    }

    /** What the consumer owes. */
    ghost function Owes(): Table
      requires |ws| == |steps| + 1
      reads this
    {
      Here().t
    }

    /** The buckets hold exactly what is owed, after any calls. */
    lemma ValidIsSound()
      requires Valid()
      ensures Sound(View(), Owes())
    {
      ReachableIsGood(ws, steps, |steps|);
    }

    /** A new database. */
    constructor Create(cfg: Config)
      ensures Valid() && this.cfg == cfg && steps == [] && Owes() == map[]
    {
      this.cfg := cfg;
      push, processing, delayed, blanks := map[], map[], map[], {};
      inflight, stale, next, checked, active, waiting := map[], map[], 0, 0, 0, 0;
      ws, steps := [NewDatabase(cfg)], [];
    }

    /** `NewBoltDBJobs` and `FromPipeline` on the database that a run has left behind: nothing owed is lost. */
    constructor Open(q: Queue, restart: bool, ghost ws0: seq<World>, ghost steps0: seq<Step>)
      requires Run(ws0, steps0) && ws0[|steps0|].q == q
      ensures Valid() && steps == steps0 + [Reopen(restart)] && Owes() == ws0[|steps0|].t
      ensures push == q.push + q.processing && processing == q.processing && delayed == q.delayed
      ensures inflight == map[] && active == 0 && waiting == 0
    {
      cfg := q.cfg;
      push, processing, delayed, blanks := q.push, q.processing, q.delayed, q.blanks;
      inflight, stale, next := map[], if restart then map[] else q.stale + q.inflight, q.next;
      checked, active, waiting := 0, 0, 0;
      ws, steps := ws0, steps0;
      new;
      Recover();
      Record(Reopen(restart));
    }

    /** Recovery: everything in `processing` is put into `push` as well. */
    method Recover()
      modifies this`push
      ensures push == old(push) + processing
    {
      var k := Seek(processing.Keys, "");
      ghost var done: set<string> := {};
      VisitStarts(processing.Keys);
      while k.Some?
        invariant Visited(processing.Keys, done, k) && (k.Some? ==> forall x | x in done :: Less(x, k.value))
        invariant push == old(push) + Part(processing, done)
        decreases |processing.Keys - done|
      {
        VisitMoves(processing.Keys, done, k.value);
        PartGrows(old(push), processing, done, k.value);
        done := done + {k.value};
        push := push[k.value := processing[k.value]];
        k := Following(processing.Keys, k.value);
      }
      assert Part(processing, processing.Keys) == processing;
    }

    /** The run goes on by the step that has been taken. */
    ghost method Record(s: Step)
      requires Run(ws, steps) && Allowed(Here(), s) && View() == Next(Here().q, s)
      modifies `ws, `steps
      ensures Valid() && steps == old(steps) + [s] && ws == old(ws) + [Advance(old(Here()), s)]
      ensures Here() == Advance(old(Here()), s) && Sound(View(), Owes())
    {
      Extend(ws, steps, s);
      ws, steps := ws + [Advance(Here(), s)], steps + [s];
      ValidIsSound();
    }

    /** The transaction of a push. */
    method Store(job: Job, key: string)
      modifies this`push, this`delayed, this`active, this`waiting
      ensures View() == DoPush(old(View()), job, key)
    {
      if job.delay > 0 {
        delayed := delayed[key := job];
        waiting := Up(waiting);
      } else {
        push := push[job.id := job];
        active := Up(active);
      }
    }

    /** An accepted job is owed, and some bucket holds it; at most the holder of its delay slot is lost. */
    method Push(job: Job, now: nat)
      requires Valid() && job.id !in Owes() && ClockOk(now) && (job.delay > 0 ==> DueOk(now, job.delay))
      modifies this`push, this`delayed, this`active, this`waiting, this`ws, this`steps
      ensures Valid() && steps == old(steps) + [BoltQueue.Push(job, KeyFor(now, job.delay))]
      ensures Owes() == Put(old(Owes()), job, KeyFor(now, job.delay)) && InSomeBucket(View(), job)
      ensures job.delay > 0 ==>
              && delayed == old(delayed)[KeyFor(now, job.delay) := job] && push == old(push) && active == old(active)
              && waiting == if old(waiting) >= 0xFFFF_FFFF_FFFF_FFFF then 0 else old(waiting) + 1
      ensures job.delay <= 0 ==>
              && push == old(push)[job.id := job] && delayed == old(delayed) && waiting == old(waiting)
              && active == if old(active) >= 0xFFFF_FFFF_FFFF_FFFF then 0 else old(active) + 1
    {
      var key := KeyFor(now, job.delay);
      Store(job, key);
      Record(BoltQueue.Push(job, key));
      OwedIsInSomeBucket(View(), Owes(), job);
    }

    /**
     A tick of the listener: the check, before the transaction begins.  It passes exactly while the
     immediate jobs, with the drift of requeues, are between those at opening and `prefetch` more.
     */
    method CheckPrefetch() returns (pass: bool)
      requires Valid() && checked < cfg.listeners
      modifies this`checked, this`ws, this`steps
      ensures Valid() && Owes() == old(Owes()) && steps == if pass then old(steps) + [Check] else old(steps)
      ensures var level := BoltBackpressure.Level(old(Here()));
              cfg.prefetch - WORD < level < WORD ==> (pass <==> 0 <= level <= cfg.prefetch)
    {
      BoltBackpressure.CheckPassesIfLevel(ws, steps);
      pass := !(active > cfg.prefetch);
      if pass {
        checked := checked + 1;
        Record(Check);
      }
    }

    /** The record with the least key goes to `processing`, or none when the bucket is empty. */
    method MoveFirst() returns (k: Option<string>)
      requires checked > 0
      modifies this`push, this`processing, this`inflight, this`next, this`checked
      ensures k.None? ==> old(push) == map[] && View() == DoYield(old(View()))
      ensures k.Some? ==> IsFirst(old(push), k.value) && View() == DoTake(old(View()), k.value)
    {
      checked := checked - 1;
      k := Seek(push.Keys, "");
      if k.None? {
        forall x | x in push ensures false {
          assert AtMost("", x);
        }
        return;
      }
      forall x | x in push ensures AtMost(k.value, x) {
        assert AtMost("", x);
      }
      var item := push[k.value];
      processing := processing[item.id := item];
      push := push - {k.value};
      inflight := inflight[next := if item.priority == 0 then item.(priority := cfg.priority) else item];
      next := next + 1;
    }

    /**
     The rest of the tick: the transaction, and the item handed to the priority queue.  The first job
     of the bucket is handed out, in one hand and in `processing` only, the item carries its record, and
     everything stays owed.
     */
    method TakeFirst() returns (h: Option<nat>)
      requires Valid() && checked > 0
      modifies this`push, this`processing, this`inflight, this`next, this`checked, this`ws, this`steps
      ensures Valid() && Owes() == old(Owes())
      ensures h.None? <==> old(push) == map[]
      ensures h.None? ==> steps == old(steps) + [Yield]
      ensures h.Some? ==> h.value == old(next) && h.value in inflight && IsFirst(old(push), inflight[h.value].id)
      ensures h.Some? ==> steps == old(steps) + [Take(inflight[h.value].id)]
      ensures h.Some? ==> OnlyHand(View(), h.value)
      ensures h.Some? ==> var r := old(push)[inflight[h.value].id];
                          && Carries(cfg, inflight[h.value], r)
                          && inflight == old(inflight)[h.value := inflight[h.value]]
                          && push == old(push) - {r.id} && processing == old(processing)[r.id := r]
    {
      ValidIsSound();
      ghost var q, t := View(), Owes();
      var k := MoveFirst();
      if k.None? {
        Record(Yield);
        return None;
      }
      TakenItem(q, t, k.value);
      Record(Take(k.value));
      h := Some(next - 1);
    }

    /** The body of the delayed scan. */
    method Move(k: string)
      requires k in delayed
      modifies this`delayed, this`processing, this`inflight, this`next
      ensures View() == DoRelease(old(View()), k)
    {
      var item := delayed[k];
      processing := processing[item.id := item];
      delayed := delayed - {k};
      inflight := inflight[next := if item.priority == 0 then item.(priority := cfg.priority) else item];
      next := next + 1;
    }

    /** A delayed job leaves its slot and is handed out with its record, and everything stays owed. */
    method Release(k: string)
      requires Valid() && k in delayed
      modifies this`delayed, this`processing, this`inflight, this`next, this`ws, this`steps
      ensures Valid() && steps == old(steps) + [BoltQueue.Release(k)] && View() == DoRelease(old(View()), k)
      ensures SameJobs(old(Owes()), Owes()) && OnlyHand(View(), old(next))
      ensures var r := old(delayed)[k];
              && Carries(cfg, inflight[old(next)], r) && inflight == old(inflight)[old(next) := inflight[old(next)]]
              && delayed == old(delayed) - {k} && processing == old(processing)[r.id := r]
    {
      ValidIsSound();
      ReleaseKeepsJobs(View(), Owes(), k);
      DeliveryCarries(View(), BoltQueue.Release(k));
      Move(k);
      Record(BoltQueue.Release(k));
      OnlyHandOf(View(), Owes(), next - 1);
    }

    /** The delayed scan between two keys. */
    method ReleaseBetween(lo: string, hi: string) returns (released: seq<string>)
      requires Valid()
      modifies this`delayed, this`processing, this`inflight, this`next, this`ws, this`steps
      ensures Valid() && SameJobs(old(Owes()), Owes())
      ensures View() == Releases(old(View()), released) && Ascending(released)
      ensures forall x | x in old(delayed) :: x in released <==> Between(x, lo, hi)
      ensures delayed == map x | x in old(delayed) && !Between(x, lo, hi) :: old(delayed)[x]
      ensures (forall i | 0 <= i < |released| :: released[i] in old(delayed)) &&
              HandedOver(old(View()), View(), released)
    {
      released := [];
      ValidIsSound();
      ghost var q := View();
      var k := Seek(delayed.Keys, lo);
      ProgressStarts(q, lo, hi);
      while k.Some? && AtMost(k.value, hi)
        invariant Valid() && SameJobs(old(Owes()), Owes())
        invariant Progress(q, View(), lo, hi, released, k)
        decreases |delayed|
      {
        ProgressMoves(q, View(), lo, hi, released, k.value);
        ghost var t := Owes();
        Release(k.value);
        SameJobsTransitive(old(Owes()), t, Owes());
        released := released + [k.value];
        k := Following(delayed.Keys, k.value);
      }
      ProgressEnds(q, View(), lo, hi, released, k);
      ScanReleases(q, lo, hi, released, k);
    }

    /**
     A tick of the delayed listener takes out exactly what the scan covers, each item carries its record,
     and everything stays owed.
     */
    method ReleaseDue(now: nat) returns (released: seq<string>)
      requires Valid() && ClockOk(now)
      modifies this`delayed, this`processing, this`inflight, this`next, this`ws, this`steps
      ensures Valid() && SameJobs(old(Owes()), Owes())
      ensures View() == Releases(old(View()), released) && Ascending(released)
      ensures forall x | x in old(delayed) :: x in released <==> InScan(x, now)
      ensures delayed == LeftBy(old(delayed), ScanEnd(now))
      ensures (forall i | 0 <= i < |released| :: released[i] in old(delayed)) &&
              HandedOver(old(View()), View(), released)
    {
      var end := ScanEnd(now);
      released := ReleaseBetween(SCAN_START, end);
    }

    /** The transaction of an acknowledgement. */
    method Settle(h: nat)
      requires h in inflight
      modifies this`processing, this`inflight, this`active, this`waiting
      ensures View() == DoAck(old(View()), h)
    {
      var item := inflight[h];
      processing := processing - {item.id};
      if item.delay > 0 {
        waiting := Down(waiting);
      } else {
        active := Down(active);
      }
      inflight := inflight - {h};
    }

    /**
     The job is owed no more and is in no bucket, and no other job is touched.  It fails, and changes
     nothing, on an item of an earlier session, whose database is closed.
     */
    method Ack(h: nat) returns (ok: bool)
      requires Valid() && (h in inflight || h in stale)
      modifies this`processing, this`inflight, this`active, this`waiting, this`ws, this`steps
      ensures Valid() && (ok <==> h in old(inflight))
      ensures ok ==> steps == old(steps) + [BoltQueue.Ack(h)] && h !in inflight
      ensures ok ==> Owes() == old(Owes()) - {old(inflight)[h].id} && Nowhere(View(), old(inflight)[h].id)
      ensures ok ==> inflight == old(inflight) - {h} && processing == old(processing) - {old(inflight)[h].id}
      ensures ok && old(inflight)[h].delay > 0 ==>
              active == old(active) && waiting == if old(waiting) == 0 then 0xFFFF_FFFF_FFFF_FFFF else old(waiting) - 1
      ensures ok && old(inflight)[h].delay <= 0 ==>
              waiting == old(waiting) && active == if old(active) == 0 then 0xFFFF_FFFF_FFFF_FFFF else old(active) - 1
      ensures !ok ==> Here() == old(Here()) && View() == old(View())
    {
      ok := h in inflight;
      if ok {
        Settle(h);
        Record(BoltQueue.Ack(h));
        NotOwedIsNowhere(View(), Owes(), old(inflight)[h].id);
      }
    }

    /** The transaction of a rejection. */
    method PutBack(h: nat)
      requires h in inflight
      modifies this`processing, this`push, this`blanks, this`inflight
      ensures View() == DoNack(old(View()), h)
    {
      var id := inflight[h].id;
      if id in processing {
        push := push[id := processing[id]];
      } else {
        push := push - {id};
        blanks := blanks + {id};
      }
      processing := processing - {id};
      inflight := inflight - {h};
    }

    /** The record goes back to `push` unchanged, and never an empty one. */
    method Nack(h: nat) returns (ok: bool)
      requires Valid() && (h in inflight || h in stale)
      modifies this`processing, this`push, this`blanks, this`inflight, this`ws, this`steps
      ensures Valid() && Owes() == old(Owes()) && blanks == {} && (ok <==> h in old(inflight))
      ensures ok ==> steps == old(steps) + [BoltQueue.Nack(h)] && h !in inflight
      ensures ok ==> var id := old(inflight)[h].id; id in push && id in Owes() && push[id] == Owes()[id].job
      ensures ok ==> var id := old(inflight)[h].id;
                     && id in old(processing) && push == old(push)[id := old(processing)[id]]
                     && processing == old(processing) - {id}
      ensures !ok ==> Here() == old(Here()) && View() == old(View())
    {
      ValidIsSound();
      ok := h in inflight;
      if ok {
        PutBack(h);
        Record(BoltQueue.Nack(h));
      }
    }

    /** The transaction of a requeue. */
    method StoreAgain(h: nat, headers: Headers, delay: int, key: string)
      requires h in inflight
      modifies this`processing, this`push, this`delayed, this`inflight
      ensures View() == DoRequeue(old(View()), h, headers, delay, key)
    {
      var item := inflight[h].(headers := headers, delay := delay);
      processing := processing - {item.id};
      if delay > 0 {
        delayed := delayed[key := item];
      } else {
        push := push[item.id := item];
      }
      inflight := inflight - {h};
    }

    method RequeueAt(h: nat, headers: Headers, delay: int, key: string)
      requires Valid() && h in inflight
      modifies this`processing, this`push, this`delayed, this`inflight, this`ws, this`steps
      ensures Valid() && steps == old(steps) + [BoltQueue.Requeue(h, headers, delay, key)] && h !in inflight
      ensures var job := old(inflight)[h].(headers := headers, delay := delay);
              && Owes() == Put(old(Owes()), job, key) && InSomeBucket(View(), job)
              && processing == old(processing) - {job.id}
              && (delay > 0 ==> push == old(push) && delayed == old(delayed)[key := job])
              && (delay <= 0 ==> delayed == old(delayed) && push == old(push)[job.id := job])
    {
      ValidIsSound();
      RequeuedTable(View(), Owes(), h, headers, delay, key);
      StoreAgain(h, headers, delay, key);
      Record(BoltQueue.Requeue(h, headers, delay, key));
      OwedIsInSomeBucket(View(), Owes(), old(inflight)[h].(headers := headers, delay := delay));
    }

    /**
     The job stays owed with the new headers and delay, and some bucket holds it.  On an item of an
     earlier session the requeue fails: the item is rewritten and nothing that is owed or stored.
     */
    method Requeue(h: nat, headers: Headers, delay: int, now: nat) returns (ok: bool)
      requires Valid() && (h in inflight || h in stale) && ClockOk(now) && (delay > 0 ==> DueOk(now, delay))
      modifies this`processing, this`push, this`delayed, this`inflight, this`stale, this`ws, this`steps
      ensures Valid() && (ok <==> h in old(inflight))
      ensures ok ==> steps == old(steps) + [BoltQueue.Requeue(h, headers, delay, KeyFor(now, delay))] && h !in inflight
      ensures ok ==> var job := old(inflight)[h].(headers := headers, delay := delay);
                     Owes() == Put(old(Owes()), job, KeyFor(now, delay)) && InSomeBucket(View(), job)
      ensures ok ==> var job := old(inflight)[h].(headers := headers, delay := delay);
                     && processing == old(processing) - {job.id}
                     && (delay > 0 ==> push == old(push) && delayed == old(delayed)[KeyFor(now, delay) := job])
                     && (delay <= 0 ==> delayed == old(delayed) && push == old(push)[job.id := job])
      ensures !ok ==> steps == old(steps) + [RequeueFails(h, headers, delay)] && Owes() == old(Owes())
      ensures !ok ==> processing == old(processing) && push == old(push) && delayed == old(delayed)
      ensures !ok ==> stale == old(stale)[h := old(stale)[h].(headers := headers, delay := delay)]
    {
      ok := h in inflight;
      if ok {
        var key := KeyFor(now, delay);
        RequeueAt(h, headers, delay, key);
      } else {
        stale := stale[h := stale[h].(headers := headers, delay := delay)];
        Record(RequeueFails(h, headers, delay));
      }
    }

    /** `Respond` does nothing, and the poller forgets the item: its job is stranded. */
    method Respond(h: nat)
      requires Valid() && (h in inflight || h in stale)
      modifies this`inflight, this`stale, this`ws, this`steps
      ensures Valid() && steps == old(steps) + [Drop(h)] && Owes() == old(Owes())
      ensures inflight == old(inflight) - {h} && stale == old(stale) - {h}
      ensures h in old(inflight) ==> Stranded(View(), old(inflight)[h].id)
    {
      ValidIsSound();
      if h in inflight {
        DropStrands(View(), Owes(), h);
      }
      inflight, stale := inflight - {h}, stale - {h};
      Record(Drop(h));
    }
  }

  /** The item has its record in `processing`, none elsewhere, and no twin in flight. */
  predicate OnlyHand(q: Queue, h: nat)
  {
    && h in q.inflight && q.inflight[h].id in q.processing && q.inflight[h].id !in q.push
    && (forall k | k in q.delayed :: q.delayed[k].id != q.inflight[h].id)
    && (forall g | g in q.inflight && g != h :: q.inflight[g].id != q.inflight[h].id)
  }

  lemma OnlyHandOf(q: Queue, t: Table, h: nat)
    requires Sound(q, t) && h in q.inflight
    ensures OnlyHand(q, h)
  {
  }

  lemma TakenItem(q: Queue, t: Table, k: string)
    requires Sound(q, t) && q.checked > 0 && k in q.push
    ensures var q' := DoTake(q, k); q.next in q'.inflight && q'.inflight[q.next].id == k && OnlyHand(q', q.next)
    ensures var q', r := DoTake(q, k), q.push[k];
            && Carries(q.cfg, q'.inflight[q.next], r) && q'.inflight == q.inflight[q.next := q'.inflight[q.next]]
            && r.id == k && q'.push == q.push - {k} && q'.processing == q.processing[k := r]
  {
    assert q.push[k].id == k;
    TakeKeepsSound(q, t, k);
    OnlyHandOf(DoTake(q, k), t, q.next);
  }

  lemma ScanReleases(q: Queue, lo: string, hi: string, ks: seq<string>, k: Option<string>)
    requires Fresh(q) && Scanned(q.delayed.Keys, lo, hi, ks, k)
    ensures (forall i | 0 <= i < |ks| :: ks[i] in q.delayed) && HandedOver(q, Releases(q, ks), ks)
  {
    ScanHandsOver(q, ks);
  }

  lemma ReleaseKeepsJobs(q: Queue, t: Table, k: string)
    requires Sound(q, t) && k in q.delayed
    ensures SameJobs(t, TableNext(q, t, BoltQueue.Release(k)))
  {
  }

  lemma NotOwedIsNowhere(q: Queue, t: Table, id: string)
    requires Sound(q, t) && id !in t
    ensures Nowhere(q, id)
  {
  }

  lemma RequeuedTable(q: Queue, t: Table, h: nat, headers: Headers, delay: int, key: string)
    requires Sound(q, t) && h in q.inflight
    ensures var job := q.inflight[h].(headers := headers, delay := delay);
            TableNext(q, t, BoltQueue.Requeue(h, headers, delay, key)) == Put(t, job, key)
            && job.id in Put(t, job, key) && Put(t, job, key)[job.id].job == job
  {
    RequeuedJob(q, t, h, headers, delay);
  }

  lemma RequeuedJob(q: Queue, t: Table, h: nat, headers: Headers, delay: int)
    requires Sound(q, t) && h in q.inflight
    ensures q.inflight[h].id in t
    ensures Amended(q.cfg, t[q.inflight[h].id].job, headers, delay) ==
            q.inflight[h].(headers := headers, delay := delay)
  {
  }

  function Part(m: map<string, Job>, keys: set<string>): map<string, Job>
  {
    map x | x in m && x in keys :: m[x]
  }

  lemma PartGrows(p: map<string, Job>, m: map<string, Job>, done: set<string>, k: string)
    requires k in m
    ensures (p + Part(m, done))[k := m[k]] == p + Part(m, done + {k})
  {
  }

  /** The keys a cursor has passed on its way to `k`, or all of them at the end. */
  ghost predicate Visited(keys: set<string>, done: set<string>, k: Option<string>)
  {
    && done <= keys
    && (k.None? ==> done == keys)
    && (k.Some? ==> k.value in keys && k.value !in done && forall x | x in keys :: x in done || AtMost(k.value, x))
  }

  lemma VisitStarts(keys: set<string>)
    ensures Visited(keys, {}, Seek(keys, ""))
  {
    assert forall x | x in keys :: AtMost("", x);
  }

  /** Moving the cursor on passes its key and no other. */
  lemma VisitMoves(keys: set<string>, done: set<string>, k: string)
    requires Visited(keys, done, Some(k)) && forall x | x in done :: Less(x, k)
    ensures Visited(keys, done + {k}, Following(keys, k))
    ensures Following(keys, k).Some? ==> forall x | x in done + {k} :: Less(x, Following(keys, k).value)
  {
    var next := Following(keys, k);
    if next.Some? {
      forall x | x in done + {k} ensures Less(x, next.value) {
        if x != k {
          LessTransitive(x, k, next.value);
        }
      }
      if next.value in done + {k} {
        LessIrreflexive(next.value);
      }
    }
  }

  /** The same jobs are owed, perhaps in other places. */
  ghost predicate SameJobs(t: Table, u: Table)
  {
    t.Keys == u.Keys && forall id | id in t :: t[id].job == u[id].job
  }

  lemma SameJobsTransitive(t: Table, u: Table, v: Table)
    requires SameJobs(t, u) && SameJobs(u, v)
    ensures SameJobs(t, v)
  {
  }
}
