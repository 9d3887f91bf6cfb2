/**
 What callers of the BoltDB driver can rely on over every run: durability, single delivery, no
 resurrection, and what becomes of an item that a poller drops.
 */
module BoltRuns {
  import opened Text
  import opened BoltQueue
  import opened JobTable
  import opened BoltSafety

  lemma {:induction false} ReachableIsGood(ws: seq<World>, steps: seq<Step>, i: nat)
    requires Run(ws, steps) && i <= |steps|
    ensures Good(ws[i])
    decreases i
  {
    if i > 0 {
      ReachableIsGood(ws, steps, i - 1);
      assert Follows(ws, steps, i - 1);
      StepRefinesTable(ws[i - 1].q, ws[i - 1].t, steps[i - 1]);
    }
  }

  /** What one step of a run does to the buckets and to the table. */
  lemma RunStep(ws: seq<World>, steps: seq<Step>, i: nat)
    requires Run(ws, steps) && i < |steps|
    ensures Sound(ws[i].q, ws[i].t) && Allowed(ws[i], steps[i])
    ensures ws[i + 1].q == Next(ws[i].q, steps[i]) && ws[i + 1].t == TableNext(ws[i].q, ws[i].t, steps[i])
  {
    ReachableIsGood(ws, steps, i);
    assert Follows(ws, steps, i);
  }

  /** The step acknowledges the job. */
  predicate Acks(q: Queue, s: Step, id: string)
  {
    s.Ack? && s.h in q.inflight && q.inflight[s.h].id == id
  }

  /** The delay key a step stores under, if it stores a delayed job. */
  function StoresAt(s: Step): Option<string>
  {
    match s
    case Push(j, key) => if j.delay > 0 then Some(key) else None
    case Requeue(_, _, delay, key) => if delay > 0 then Some(key) else None
    case _ => None
  }

  /** The step puts another job into the delay slot of this one. */
  predicate Overwrites(q: Queue, s: Step, id: string)
  {
    StoresAt(s).Some? && StoresAt(s).value in q.delayed && q.delayed[StoresAt(s).value].id == id
  }

  /** The step hands the job out. */
  predicate Delivers(q: Queue, s: Step, id: string)
  {
    match s
    case Take(k) => k in q.push && q.push[k].id == id
    case Release(k) => k in q.delayed && q.delayed[k].id == id
    case _ => false
  }

  /** Some bucket holds the job, with its name, payload and pipeline as given. */
  ghost predicate InSomeBucket(q: Queue, j: Job)
  {
    || (j.id in q.push && SameJob(q.push[j.id], j))
    || (j.id in q.processing && SameJob(q.processing[j.id], j))
    || (exists k | k in q.delayed :: SameJob(q.delayed[k], j))
  }

  lemma OwedIsInSomeBucket(q: Queue, t: Table, j: Job)
    requires Sound(q, t) && j.id in t && SameJob(t[j.id].job, j)
    ensures InSomeBucket(q, j)
  {
    match t[j.id].slot {
      case None =>
      case Some(k) => assert SameJob(q.delayed[k], j);
    }
  }

  lemma PutKeepsOthers(t: Table, j: Job, key: string, id: string)
    requires id in t && id != j.id
    requires j.delay > 0 ==> t[id].slot != Some(key)
    ensures id in Put(t, j, key) && Put(t, j, key)[id] == t[id]
  {
  }

  /** An item carries the stored record, so requeueing it keeps the job the same. */
  lemma RequeueKeepsTheJob(q: Queue, t: Table, h: nat, headers: Headers, delay: int)
    requires Sound(q, t) && h in q.inflight
    ensures q.inflight[h].id in t && t[q.inflight[h].id].job.id == q.inflight[h].id
    ensures SameJob(Amended(q.cfg, t[q.inflight[h].id].job, headers, delay), t[q.inflight[h].id].job)
  {
  }

  lemma SlotHolder(q: Queue, t: Table, id: string, key: string)
    requires Sound(q, t) && id in t && t[id].slot == Some(key)
    ensures key in q.delayed && q.delayed[key].id == id
  {
  }

  lemma SlotIsNotTaken(q: Queue, t: Table, s: Step, id: string)
    requires Sound(q, t) && id in t && !Overwrites(q, s, id)
    ensures StoresAt(s).Some? ==> t[id].slot != StoresAt(s)
  {
    if StoresAt(s).Some? && t[id].slot == StoresAt(s) {
      SlotHolder(q, t, id, StoresAt(s).value);
    }
  }

  lemma EntryOutlivesRequeue(q: Queue, t: Table, s: Step, id: string)
    requires Sound(q, t) && Possible(q, s) && s.Requeue? && id in t
    requires s.delay > 0 ==> t[id].slot != Some(s.key)
    ensures id in TableNext(q, t, s) && SameJob(TableNext(q, t, s)[id].job, t[id].job)
  {
    RequeueKeepsTheJob(q, t, s.h, s.headers, s.delay);
    var held := q.inflight[s.h].id;
    if id != held {
      PutKeepsOthers(t, Amended(q.cfg, t[held].job, s.headers, s.delay), s.key, id);
    }
  }

  lemma EntryOutlivesStep(q: Queue, t: Table, s: Step, id: string)
    requires Sound(q, t) && Possible(q, s) && (s.Push? ==> s.job.id !in t)
    requires id in t && !Acks(q, s, id) && !Overwrites(q, s, id)
    ensures id in TableNext(q, t, s) && SameJob(TableNext(q, t, s)[id].job, t[id].job)
  {
    SlotIsNotTaken(q, t, s, id);
    if s.Requeue? {
      EntryOutlivesRequeue(q, t, s, id);
    } else {
      EntryOutlivesOthers(q, t, s, id);
    }
  }

  lemma EntryOutlivesOthers(q: Queue, t: Table, s: Step, id: string)
    requires Possible(q, s) && !s.Requeue? && (s.Push? ==> s.job.id !in t) && id in t && !Acks(q, s, id)
    requires StoresAt(s).Some? ==> t[id].slot != StoresAt(s)
    ensures id in TableNext(q, t, s) && SameJob(TableNext(q, t, s)[id].job, t[id].job)
  {
    if s.Push? {
      PutKeepsOthers(t, s.job, s.key, id);
    }
  }

  /**
   Durability: from the moment a push is accepted until the job is acknowledged, or another job is
   stored in its delay slot, some bucket holds it unchanged, whatever else happens in between,
   crashes and reopenings included.
   */
  lemma {:induction false} Durability(ws: seq<World>, steps: seq<Step>, i: nat, j: nat)
    requires Run(ws, steps) && i < j <= |steps| && steps[i].Push?
    requires forall m | i < m < j ::
               !Acks(ws[m].q, steps[m], steps[i].job.id) && !Overwrites(ws[m].q, steps[m], steps[i].job.id)
    ensures InSomeBucket(ws[j].q, steps[i].job)
    ensures steps[i].job.id in ws[j].t && SameJob(ws[j].t[steps[i].job.id].job, steps[i].job)
    decreases j
  {
    var job := steps[i].job;
    RunStep(ws, steps, j - 1);
    if j == i + 1 {
      PushedEntry(ws, steps, i);
    } else {
      Durability(ws, steps, i, j - 1);
      EntryOutlivesStep(ws[j - 1].q, ws[j - 1].t, steps[j - 1], job.id);
    }
    ReachableIsGood(ws, steps, j);
    OwedIsInSomeBucket(ws[j].q, ws[j].t, job);
  }

  lemma PutAddsOne(t: Table, j: Job, key: string, id: string)
    requires id in Put(t, j, key) && id != j.id
    ensures id in t && Put(t, j, key)[id] == t[id]
  {
  }

  lemma EntryHasAnOrigin(q: Queue, t: Table, s: Step, id: string)
    requires Sound(q, t) && Possible(q, s)
    requires id in TableNext(q, t, s) && !(s.Push? && s.job.id == id)
    ensures id in t && !Acks(q, s, id) && SameJob(TableNext(q, t, s)[id].job, t[id].job)
  {
    if s.Requeue? {
      RequeueKeepsTheJob(q, t, s.h, s.headers, s.delay);
      RequeueOrigin(q, t, s, id);
    } else {
      OriginElsewhere(q, t, s, id);
    }
  }

  lemma OriginElsewhere(q: Queue, t: Table, s: Step, id: string)
    requires Possible(q, s) && !s.Requeue? && id in TableNext(q, t, s) && !(s.Push? && s.job.id == id)
    ensures id in t && !Acks(q, s, id) && SameJob(TableNext(q, t, s)[id].job, t[id].job)
  {
    if s.Push? {
      PutAddsOne(t, s.job, s.key, id);
    }
  }

  lemma RequeueOrigin(q: Queue, t: Table, s: Step, id: string)
    requires Possible(q, s) && s.Requeue? && id in TableNext(q, t, s) && q.inflight[s.h].id in t
    requires var j := t[q.inflight[s.h].id].job;
             j.id == q.inflight[s.h].id && SameJob(Amended(q.cfg, j, s.headers, s.delay), j)
    ensures id in t && SameJob(TableNext(q, t, s)[id].job, t[id].job)
  {
    var held := q.inflight[s.h].id;
    if id != held {
      PutAddsOne(t, Amended(q.cfg, t[held].job, s.headers, s.delay), s.key, id);
    }
  }

  lemma EntryCameFrom(ws: seq<World>, steps: seq<Step>, j: nat, id: string)
    requires Run(ws, steps) && j < |steps| && id in ws[j + 1].t
    requires !(steps[j].Push? && steps[j].job.id == id)
    ensures id in ws[j].t && !Acks(ws[j].q, steps[j], id) && SameJob(ws[j + 1].t[id].job, ws[j].t[id].job)
  {
    RunStep(ws, steps, j);
    EntryHasAnOrigin(ws[j].q, ws[j].t, steps[j], id);
  }

  lemma PushedEntry(ws: seq<World>, steps: seq<Step>, i: nat)
    requires Run(ws, steps) && i < |steps| && steps[i].Push?
    ensures steps[i].job.id in ws[i + 1].t && ws[i + 1].t[steps[i].job.id].job == steps[i].job
  {
    RunStep(ws, steps, i);
  }

  /** Nothing is invented: an entry goes back to one push, unacknowledged since. */
  lemma {:induction false} Provenance(ws: seq<World>, steps: seq<Step>, j: nat, id: string) returns (i: nat)
    requires Run(ws, steps) && j <= |steps| && id in ws[j].t
    ensures i < j && steps[i].Push? && SameJob(ws[j].t[id].job, steps[i].job) && steps[i].job.id == id
    ensures forall m | i < m < j :: !Acks(ws[m].q, steps[m], id)
    decreases j
  {
    assert j > 0;
    var s := steps[j - 1];
    if s.Push? && s.job.id == id {
      i := j - 1;
      PushedEntry(ws, steps, i);
    } else {
      EntryCameFrom(ws, steps, j - 1, id);
      i := Provenance(ws, steps, j - 1, id);
    }
  }

  /** Records in any bucket are owed, so they have a push behind them. */
  lemma BucketsHoldOnlyOwed(ws: seq<World>, steps: seq<Step>, i: nat, j: Job)
    requires Run(ws, steps) && i <= |steps|
    requires j in ws[i].q.push.Values + ws[i].q.processing.Values + ws[i].q.delayed.Values
    ensures j.id in ws[i].t && ws[i].t[j.id].job == j
  {
    ReachableIsGood(ws, steps, i);
  }

  /** Single delivery: who is in flight is in `processing` only, in one hand, and no record is empty. */
  lemma SingleDelivery(ws: seq<World>, steps: seq<Step>, i: nat, h: nat)
    requires Run(ws, steps) && i <= |steps| && h in ws[i].q.inflight
    ensures ws[i].q.inflight[h].id in ws[i].q.processing
    ensures var item := ws[i].q.inflight[h];
            var r := ws[i].q.processing[item.id];
            && item.(priority := r.priority, headers := r.headers, delay := r.delay) == r
            && item.priority == if r.priority == 0 then ws[i].q.cfg.priority else r.priority
    ensures ws[i].q.inflight[h].id !in ws[i].q.push
    ensures forall k | k in ws[i].q.delayed :: ws[i].q.delayed[k].id != ws[i].q.inflight[h].id
    ensures forall g | g in ws[i].q.inflight && g != h :: ws[i].q.inflight[g].id != ws[i].q.inflight[h].id
    ensures ws[i].q.blanks == {}
  {
    ReachableIsGood(ws, steps, i);
  }

  lemma {:induction false} SettledStaysOut(ws: seq<World>, steps: seq<Step>, i: nat, j: nat, id: string)
    requires Run(ws, steps) && i < j <= |steps| && Acks(ws[i].q, steps[i], id)
    requires forall m | i < m < j :: steps[m].Push? ==> steps[m].job.id != id
    ensures id !in ws[j].t
    decreases j
  {
    if j == i + 1 {
      RunStep(ws, steps, i);
    } else {
      SettledStaysOut(ws, steps, i, j - 1, id);
      if id in ws[j].t {
        EntryCameFrom(ws, steps, j - 1, id);
      }
    }
  }

  /** No resurrection: an acknowledged job is not handed out again until it is pushed again. */
  lemma NoResurrection(ws: seq<World>, steps: seq<Step>, i: nat, j: nat, id: string)
    requires Run(ws, steps) && i < j < |steps| && Acks(ws[i].q, steps[i], id)
    requires forall m | i < m < j :: steps[m].Push? ==> steps[m].job.id != id
    ensures !Delivers(ws[j].q, steps[j], id)
    ensures id !in ws[j].q.push && id !in ws[j].q.processing
    ensures forall k | k in ws[j].q.delayed :: ws[j].q.delayed[k].id != id
  {
    SettledStaysOut(ws, steps, i, j, id);
    ReachableIsGood(ws, steps, j);
  }

  /** In `processing`, in nobody's hand, and out of the listeners' sight. */
  ghost predicate Stranded(q: Queue, id: string)
  {
    id in q.processing && id !in q.push && NoItem(q.inflight, id)
  }

  lemma StrandedSurvivesStoring(q: Queue, t: Table, j: Job, key: string, id: string)
    requires Sound(q, t) && Stranded(q, id) && j.id !in t
    ensures Stranded(DoPush(q, j, key), id) && DoPush(q, j, key).processing == q.processing
  {
  }

  lemma StrandedSurvivesRemoval(q: Queue, h: nat, id: string)
    requires h in q.inflight && Stranded(q, id)
    ensures Stranded(Removed(q, h), id) && Removed(q, h).processing[id] == q.processing[id]
    ensures q.inflight[h].id != id
  {
  }

  lemma StrandedSurvivesSettling(q: Queue, s: Step, id: string)
    requires Possible(q, s) && (s.Ack? || s.Nack? || s.Requeue?) && Stranded(q, id)
    ensures Stranded(Next(q, s), id) && Next(q, s).processing[id] == q.processing[id]
  {
    StrandedSurvivesRemoval(q, s.h, id);
  }

  lemma StrandedIsNotHandedOut(q: Queue, t: Table, s: Step, id: string)
    requires Sound(q, t) && Possible(q, s) && (s.Take? || s.Release?) && Stranded(q, id)
    ensures Stranded(Next(q, s), id) && Next(q, s).processing[id] == q.processing[id]
    ensures !Delivers(q, s, id)
  {
    var j := if s.Take? then q.push[s.key] else q.delayed[s.key];
    assert j.id != id;
  }

  lemma StrandedStepByStep(q: Queue, t: Table, s: Step, id: string)
    requires Sound(q, t) && Possible(q, s) && (s.Push? ==> s.job.id !in t)
    requires Stranded(q, id) && !s.Reopen?
    ensures Stranded(Next(q, s), id) && Next(q, s).processing[id] == q.processing[id]
    ensures !Delivers(q, s, id)
  {
    if s.Push? {
      StrandedSurvivesStoring(q, t, s.job, s.key, id);
    } else if s.Take? || s.Release? {
      StrandedIsNotHandedOut(q, t, s, id);
    } else if s.Ack? || s.Nack? || s.Requeue? {
      StrandedSurvivesSettling(q, s, id);
    } else {
      StrandedSurvivesOthers(q, s, id);
    }
  }

  lemma StrandedSurvivesOthers(q: Queue, s: Step, id: string)
    requires Possible(q, s) && (s.Check? || s.Yield? || s.RequeueFails? || s.Drop?) && Stranded(q, id)
    ensures Stranded(Next(q, s), id) && Next(q, s).processing[id] == q.processing[id]
  {
  }

  lemma DropStrands(q: Queue, t: Table, h: nat)
    requires Sound(q, t) && h in q.inflight
    ensures Stranded(DoDrop(q, h), q.inflight[h].id) && DoDrop(q, h).processing == q.processing
  {
  }

  /**
   A job whose item is dropped without a transaction (a reply that is only responded to, or a
   settlement that failed) is kept but not handed out again until the database is reopened.
   */
  lemma {:induction false} DroppedWaitsForReopen(ws: seq<World>, steps: seq<Step>, i: nat, j: nat, id: string)
    requires Run(ws, steps) && i < j <= |steps|
    requires steps[i].Drop? && steps[i].h in ws[i].q.inflight && ws[i].q.inflight[steps[i].h].id == id
    requires forall m | i < m < j :: !steps[m].Reopen?
    ensures id in ws[i].q.processing && Stranded(ws[j].q, id)
    ensures ws[j].q.processing[id] == ws[i].q.processing[id]
    ensures j < |steps| ==> !Delivers(ws[j].q, steps[j], id)
    ensures j < |steps| && steps[j].Reopen? ==> id in ws[j + 1].q.push
    decreases j
  {
    RunStep(ws, steps, i);
    if j == i + 1 {
      DropStrands(ws[i].q, ws[i].t, steps[i].h);
    } else {
      DroppedWaitsForReopen(ws, steps, i, j - 1, id);
      StrandedInRun(ws, steps, j - 1, id);
    }
    if j < |steps| {
      StrandedInRun(ws, steps, j, id);
    }
  }

  lemma StrandedInRun(ws: seq<World>, steps: seq<Step>, j: nat, id: string)
    requires Run(ws, steps) && j < |steps| && Stranded(ws[j].q, id)
    ensures !Delivers(ws[j].q, steps[j], id)
    ensures !steps[j].Reopen? ==> Stranded(ws[j + 1].q, id) && ws[j + 1].q.processing[id] == ws[j].q.processing[id]
    ensures steps[j].Reopen? ==> id in ws[j + 1].q.push
  {
    RunStep(ws, steps, j);
    if !steps[j].Reopen? {
      StrandedStepByStep(ws[j].q, ws[j].t, steps[j], id);
    }
  }

  lemma StrandedBeforeHandOut(q: Queue, j: Job, id: string)
    requires Fresh(q) && Stranded(HandOut(q, j), id)
    ensures j.id != id && Stranded(q, id)
  {
    var q' := HandOut(q, j);
    assert q'.inflight[q.next].id == j.id;
    assert forall h | h in q.inflight :: q'.inflight[h] == q.inflight[h];
  }

  lemma StrandedBeforeRemoval(q: Queue, h: nat, id: string)
    requires h in q.inflight && Stranded(Removed(q, h), id)
    ensures Stranded(q, id)
  {
    forall g | g in q.inflight ensures q.inflight[g].id != id {
      if g != h {
        assert Removed(q, h).inflight[g] == q.inflight[g];
      }
    }
  }

  lemma StrandedBeforeDelivery(q: Queue, t: Table, s: Step, id: string)
    requires Sound(q, t) && Possible(q, s) && (s.Take? || s.Release?) && Stranded(Next(q, s), id)
    ensures Stranded(q, id)
  {
    if s.Take? {
      assert q.push[s.key].id == s.key;
      StrandedBeforeHandOut(q.(push := q.push - {s.key}, checked := q.checked - 1), q.push[s.key], id);
    } else {
      StrandedBeforeHandOut(q.(delayed := q.delayed - {s.key}), q.delayed[s.key], id);
    }
  }

  lemma StrandedBeforeSettling(q: Queue, s: Step, id: string)
    requires Possible(q, s) && (s.Ack? || s.Nack? || s.Requeue?) && Stranded(Next(q, s), id)
    ensures Stranded(q, id)
  {
    assert Stranded(Removed(q, s.h), id);
    StrandedBeforeRemoval(q, s.h, id);
  }

  lemma StrandedBefore(q: Queue, t: Table, s: Step, id: string)
    requires Sound(q, t) && Possible(q, s) && !s.Reopen? && Stranded(Next(q, s), id)
    requires !Drops(q, s, id)
    ensures Stranded(q, id)
  {
    if s.Take? || s.Release? {
      StrandedBeforeDelivery(q, t, s, id);
    } else if s.Ack? || s.Nack? || s.Requeue? {
      StrandedBeforeSettling(q, s, id);
    } else {
      StrandedBeforeOthers(q, s, id);
    }
  }

  lemma StrandedBeforeOthers(q: Queue, s: Step, id: string)
    requires Possible(q, s) && (s.Push? || s.Check? || s.Yield? || s.RequeueFails? || s.Drop?)
    requires Stranded(Next(q, s), id) && !Drops(q, s, id)
    ensures Stranded(q, id)
  {
    match s {
      case RequeueFails(h, headers, delay) => StrandedBeforeFailure(q, h, headers, delay, id);
      case Drop(h) => StrandedBeforeDrop(q, h, id);
      case _ =>
    }
  }

  lemma StrandedBeforeFailure(q: Queue, h: nat, headers: Headers, delay: int, id: string)
    requires (h in q.inflight || h in q.stale) && Stranded(DoRequeueFails(q, h, headers, delay), id)
    ensures Stranded(q, id)
  {
    var q' := DoRequeueFails(q, h, headers, delay);
    assert forall g | g in q.inflight :: q'.inflight[g].id == q.inflight[g].id;
  }

  lemma StrandedBeforeDrop(q: Queue, h: nat, id: string)
    requires Stranded(DoDrop(q, h), id) && (h in q.inflight ==> q.inflight[h].id != id)
    ensures Stranded(q, id)
  {
    assert forall g | g in q.inflight && g != h :: DoDrop(q, h).inflight[g] == q.inflight[g];
  }

  /** The step drops the item of this job. */
  predicate Drops(q: Queue, s: Step, id: string)
  {
    s.Drop? && s.h in q.inflight && q.inflight[s.h].id == id
  }

  lemma ReopenIsNotStranded(q: Queue, restart: bool, id: string)
    ensures !Stranded(DoReopen(q, restart), id)
  {
  }

  lemma StrandedCameFrom(ws: seq<World>, steps: seq<Step>, j: nat, id: string)
    requires Run(ws, steps) && j < |steps| && Stranded(ws[j + 1].q, id) && !Drops(ws[j].q, steps[j], id)
    ensures Stranded(ws[j].q, id) && !steps[j].Reopen?
  {
    RunStep(ws, steps, j);
    if steps[j].Reopen? {
      ReopenIsNotStranded(ws[j].q, steps[j].restart, id);
    } else {
      StrandedBefore(ws[j].q, ws[j].t, steps[j], id);
    }
  }

  lemma {:induction false} StrandedWasDropped(ws: seq<World>, steps: seq<Step>, j: nat, id: string) returns (i: nat)
    requires Run(ws, steps) && j <= |steps| && Stranded(ws[j].q, id)
    ensures i < j && Drops(ws[i].q, steps[i], id) && forall m | i < m < j :: !steps[m].Reopen?
    decreases j
  {
    assert j > 0;
    if Drops(ws[j - 1].q, steps[j - 1], id) {
      i := j - 1;
    } else {
      StrandedCameFrom(ws, steps, j - 1, id);
      i := StrandedWasDropped(ws, steps, j - 1, id);
    }
  }

  /** A job is stranded exactly when its item has been dropped and the database not reopened since. */
  lemma StrandedExactly(ws: seq<World>, steps: seq<Step>, j: nat, id: string)
    requires Run(ws, steps) && j <= |steps|
    ensures Stranded(ws[j].q, id) <==>
            exists i | 0 <= i < j :: Drops(ws[i].q, steps[i], id) && forall m | i < m < j :: !steps[m].Reopen?
  {
    if Stranded(ws[j].q, id) {
      var i := StrandedWasDropped(ws, steps, j, id);
    } else if exists i | 0 <= i < j :: Drops(ws[i].q, steps[i], id) && forall m | i < m < j :: !steps[m].Reopen? {
      var i :| 0 <= i < j && Drops(ws[i].q, steps[i], id) && forall m | i < m < j :: !steps[m].Reopen?;
      DroppedWaitsForReopen(ws, steps, i, j, id);
    }
  }

  // Runs made step by step

  function Plain(id: string): Job
  {
    Job(id, "job", "payload", map[], "pipe", 10, 0)
  }

  function NewDatabase(cfg: Config): World
  {
    World(Queue(cfg, map[], map[], map[], {}, map[], map[], 0, 0, 0, 0), map[], Totals(0, 0, 0),
          Opening(0, 0, 0, false, 0))
  }

  lemma Extend(ws: seq<World>, steps: seq<Step>, s: Step)
    requires Run(ws, steps) && Allowed(ws[|steps|], s)
    ensures Run(ws + [Advance(ws[|steps|], s)], steps + [s])
  {
    var ws', steps' := ws + [Advance(ws[|steps|], s)], steps + [s];
    forall i | 0 <= i < |steps'| ensures Follows(ws', steps', i) {
      if i < |steps| {
        assert Follows(ws, steps, i);
        assert ws'[i] == ws[i] && ws'[i + 1] == ws[i + 1] && steps'[i] == steps[i];
      } else {
        assert ws'[i] == ws[i] && steps'[i] == s && ws'[i + 1] == Advance(ws[i], s);
      }
    }
    assert ws'[0] == ws[0];
  }

  const ONE: map<string, Job> := map["a" := Plain("a")]
  const ONE_OWED: Table := map["a" := Entry(Plain("a"), None)]

  lemma OneIsFirst()
    ensures IsFirst(ONE, "a") && ONE - {"a"} == map[]
  {
  }

  /** A job is pushed and taken. */
  lemma PushAndTake(cfg: Config) returns (ws: seq<World>, steps: seq<Step>)
    requires cfg.listeners > 0 && cfg.prefetch > 0
    ensures Run(ws, steps) && steps == [Push(Plain("a"), ""), Check, Take("a")] && ws[3].t == ONE_OWED
    ensures ws[3].q == Queue(cfg, map[], ONE, map[], {}, map[0 := Plain("a")], map[], 1, 0, 1, 0)
  {
    var w := NewDatabase(cfg);
    ws, steps := [w], [];
    Extend(ws, steps, Push(Plain("a"), ""));
    w := Advance(w, Push(Plain("a"), ""));
    ws, steps := ws + [w], steps + [Push(Plain("a"), "")];
    assert w.q == Queue(cfg, ONE, map[], map[], {}, map[], map[], 0, 0, 1, 0);
    Extend(ws, steps, Check);
    w := Advance(w, Check);
    ws, steps := ws + [w], steps + [Check];
    OneIsFirst();
    Extend(ws, steps, Take("a"));
    ws, steps := ws + [Advance(w, Take("a"))], steps + [Take("a")];
  }

  /** A run that strands a job: it is taken, and its worker only responds. */
  lemma StrandingHappens(cfg: Config) returns (ws: seq<World>, steps: seq<Step>)
    requires cfg.listeners > 0 && cfg.prefetch > 0
    ensures Run(ws, steps) && steps == [Push(Plain("a"), ""), Check, Take("a"), Drop(0)] && Stranded(ws[4].q, "a")
  {
    ws, steps := PushAndTake(cfg);
    Extend(ws, steps, Drop(0));
    ws, steps := ws + [Advance(ws[3], Drop(0))], steps + [Drop(0)];
  }
}
