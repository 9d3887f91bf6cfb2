/**
 Safety of the BoltDB driver over whole runs: the buckets hold exactly the jobs that are owed,
 nothing is delivered twice, and acknowledged jobs stay away.
 */
module BoltSafety {
  import opened Text
  import opened BoltQueue
  import opened JobTable

  type Bucket = map<string, Job>
  type Items = map<nat, Job>

  /** Table entries carry their own identifier, and only delayed jobs sit in a slot. */
  ghost predicate Keyed(t: Table)
  {
    forall id | id in t :: t[id].job.id == id && (t[id].slot.Some? ==> t[id].job.delay > 0)
  }

  /** Everything in a bucket is owed, unchanged, and in the right place. */
  ghost predicate Owed(q: Queue, t: Table)
  {
    OwedNow(q.push, t) && OwedNow(q.processing, t) && OwedLater(q.delayed, t)
  }

  ghost predicate OwedNow(bucket: Bucket, t: Table)
  {
    forall k | k in bucket :: k in t && t[k] == Entry(bucket[k], None)
  }

  ghost predicate OwedLater(delayed: Bucket, t: Table)
  {
    forall k | k in delayed :: delayed[k].id in t && t[delayed[k].id] == Entry(delayed[k], Some(k))
  }

  /** Everything owed is in a bucket. */
  ghost predicate Stored(q: Queue, t: Table)
  {
    StoredIn(q.push, q.processing, q.delayed, t)
  }

  ghost predicate StoredIn(push: Bucket, processing: Bucket, delayed: Bucket, t: Table)
  {
    forall id | id in t ::
      match t[id].slot
      case None => id in push || id in processing
      case Some(k) => k in delayed && delayed[k].id == id
  }

  /** An item in memory is the stored record, up to what a failed requeue rewrote. */
  predicate Resembles(cfg: Config, item: Job, j: Job)
  {
    item.(headers := j.headers, delay := j.delay) == WithPriority(cfg, j)
  }

  /** An item handed out is in `processing`, in no other bucket, and in no other hand. */
  ghost predicate HandedOut(q: Queue, t: Table)
  {
    InProcessing(q.push, q.processing, q.inflight) && ResembleAll(q.cfg, q.inflight, t) && Distinct(q.inflight)
  }

  ghost predicate InProcessing(push: Bucket, processing: Bucket, inflight: Items)
  {
    forall h | h in inflight :: inflight[h].id in processing && inflight[h].id !in push
  }

  ghost predicate ResembleAll(cfg: Config, inflight: Items, t: Table)
  {
    forall h | h in inflight :: inflight[h].id in t && Resembles(cfg, inflight[h], t[inflight[h].id].job)
  }

  ghost predicate Distinct(inflight: Items)
  {
    forall h, g | h in inflight && g in inflight && inflight[h].id == inflight[g].id :: h == g
  }

  ghost predicate Fresh(q: Queue)
  {
    AllBelow(q.inflight, q.next) && AllBelow(q.stale, q.next) && q.blanks == {}
  }

  predicate AllBelow(items: Items, next: nat)
  {
    forall h | h in items :: h < next
  }

  ghost predicate Sound(q: Queue, t: Table)
  {
    Keyed(t) && Owed(q, t) && Stored(q, t) && HandedOut(q, t) && Fresh(q)
  }

  ghost predicate Good(w: World)
  {
    Sound(w.q, w.t)
  }

  // Buckets

  lemma OwedNowElsewhere(bucket: Bucket, t: Table, id: string, e: Entry)
    requires OwedNow(bucket, t) && id !in t
    ensures OwedNow(bucket, t[id := e])
  {
  }

  lemma OwedNowMore(bucket: Bucket, t: Table, j: Job)
    requires OwedNow(bucket, t)
    ensures OwedNow(bucket[j.id := j], t[j.id := Entry(j, None)])
  {
  }

  lemma OwedNowLess(bucket: Bucket, t: Table, id: string)
    requires OwedNow(bucket, t)
    ensures OwedNow(bucket - {id}, t - {id})
  {
  }

  lemma OwedNowEvicted(bucket: Bucket, t: Table, key: string)
    requires OwedNow(bucket, t)
    ensures OwedNow(bucket, Evict(t, key))
  {
  }

  lemma OwedLaterElsewhere(delayed: Bucket, t: Table, id: string, e: Entry)
    requires OwedLater(delayed, t) && id !in t
    ensures OwedLater(delayed, t[id := e])
  {
  }

  lemma OwedLaterLess(delayed: Bucket, t: Table, id: string)
    requires OwedLater(delayed, t) && id in t && t[id].slot == None
    ensures OwedLater(delayed, t - {id})
  {
  }

  lemma OwedLaterEvicted(delayed: Bucket, t: Table, key: string, j: Job)
    requires OwedLater(delayed, t) && j.id !in t
    ensures OwedLater(delayed[key := j], Evict(t, key)[j.id := Entry(j, Some(key))])
  {
  }

  lemma OwedLaterReleased(delayed: Bucket, t: Table, k: string)
    requires OwedLater(delayed, t) && k in delayed
    ensures OwedLater(delayed - {k}, t[delayed[k].id := Entry(delayed[k], None)])
  {
  }

  // Items

  predicate NoItem(items: Items, id: string)
  {
    forall h | h in items :: items[h].id != id
  }

  lemma ResembleElsewhere(cfg: Config, inflight: Items, t: Table, id: string, e: Entry)
    requires ResembleAll(cfg, inflight, t) && id !in t
    ensures ResembleAll(cfg, inflight, t[id := e]) && NoItem(inflight, id)
  {
  }

  lemma ResembleLess(cfg: Config, inflight: Items, t: Table, h: nat)
    requires ResembleAll(cfg, inflight, t) && Distinct(inflight) && h in inflight
    ensures ResembleAll(cfg, inflight - {h}, t - {inflight[h].id})
  {
  }

  lemma ResembleMore(cfg: Config, inflight: Items, t: Table, h: nat, j: Job)
    requires ResembleAll(cfg, inflight, t) && j.id in t && t[j.id].job == j
    ensures ResembleAll(cfg, inflight[h := WithPriority(cfg, j)], t)
  {
  }

  lemma DistinctLess(inflight: Items, h: nat)
    requires Distinct(inflight)
    ensures Distinct(inflight - {h})
  {
  }

  lemma DistinctMore(inflight: Items, h: nat, item: Job)
    requires Distinct(inflight) && NoItem(inflight, item.id)
    ensures Distinct(inflight[h := item])
  {
  }

  lemma InProcessingLess(push: Bucket, processing: Bucket, inflight: Items, h: nat)
    requires InProcessing(push, processing, inflight) && Distinct(inflight) && h in inflight
    ensures InProcessing(push, processing - {inflight[h].id}, inflight - {h})
  {
  }

  lemma InProcessingMore(push: Bucket, processing: Bucket, inflight: Items, h: nat, item: Job,
                         j: Job)
    requires InProcessing(push, processing, inflight) && item.id == j.id && j.id !in push
    ensures InProcessing(push, processing[j.id := j], inflight[h := item])
  {
  }

  lemma InProcessingPushed(push: Bucket, processing: Bucket, inflight: Items, j: Job)
    requires InProcessing(push, processing, inflight) && NoItem(inflight, j.id)
    ensures InProcessing(push[j.id := j], processing, inflight)
  {
  }

  // Storing, removing and handing out

  /** A new job goes into the push bucket. */
  lemma StoreNowIsSound(q: Queue, t: Table, j: Job)
    requires Sound(q, t) && j.id !in t
    ensures Sound(q.(push := q.push[j.id := j]), t[j.id := Entry(j, None)])
  {
    var e := Entry(j, None);
    OwedNowMore(q.push, t, j);
    OwedNowElsewhere(q.processing, t, j.id, e);
    OwedLaterElsewhere(q.delayed, t, j.id, e);
    ResembleElsewhere(q.cfg, q.inflight, t, j.id, e);
    InProcessingPushed(q.push, q.processing, q.inflight, j);
    StoreNowStored(q.push, q.processing, q.delayed, t, j);
  }

  lemma StoreNowStored(push: Bucket, processing: Bucket, delayed: Bucket, t: Table, j: Job)
    requires Keyed(t) && StoredIn(push, processing, delayed, t)
    ensures Keyed(t[j.id := Entry(j, None)])
    ensures StoredIn(push[j.id := j], processing, delayed, t[j.id := Entry(j, None)])
  {
  }

  /** The table after a new job displaces the holder of a delay slot. */
  function Displaced(t: Table, key: string, j: Job): Table
  {
    Evict(t, key)[j.id := Entry(j, Some(key))]
  }

  lemma StoreLaterStored(push: Bucket, processing: Bucket, delayed: Bucket, t: Table,
                         key: string, j: Job)
    requires Keyed(t) && StoredIn(push, processing, delayed, t) && j.id !in t && j.delay > 0
    ensures Keyed(Displaced(t, key, j)) && StoredIn(push, processing, delayed[key := j], Displaced(t, key, j))
  {
  }

  /** Items have no slot, so that evicting the holder of one leaves them alone. */
  lemma ResembleEvicted(cfg: Config, processing: Bucket, inflight: Items, t: Table, key: string)
    requires ResembleAll(cfg, inflight, t) && OwedNow(processing, t)
    requires forall h | h in inflight :: inflight[h].id in processing
    ensures ResembleAll(cfg, inflight, Evict(t, key))
  {
  }

  /** A new job goes into a delay slot and displaces whoever held it. */
  lemma StoreLaterIsSound(q: Queue, t: Table, key: string, j: Job)
    requires Sound(q, t) && j.id !in t && j.delay > 0
    ensures Sound(q.(delayed := q.delayed[key := j]), Displaced(t, key, j))
  {
    var e, t0 := Entry(j, Some(key)), Evict(t, key);
    OwedNowEvicted(q.push, t, key);
    OwedNowElsewhere(q.push, t0, j.id, e);
    OwedNowEvicted(q.processing, t, key);
    OwedNowElsewhere(q.processing, t0, j.id, e);
    OwedLaterEvicted(q.delayed, t, key, j);
    ResembleEvicted(q.cfg, q.processing, q.inflight, t, key);
    ResembleElsewhere(q.cfg, q.inflight, t0, j.id, e);
    StoreLaterStored(q.push, q.processing, q.delayed, t, key, j);
  }

  lemma RemoveStored(push: Bucket, processing: Bucket, delayed: Bucket, t: Table, id: string)
    requires Keyed(t) && StoredIn(push, processing, delayed, t)
    ensures Keyed(t - {id}) && StoredIn(push, processing - {id}, delayed, t - {id})
  {
  }

  lemma RemoveIsSound(q: Queue, t: Table, h: nat)
    requires Sound(q, t) && h in q.inflight
    ensures Sound(Removed(q, h), t - {q.inflight[h].id})
  {
    var id := q.inflight[h].id;
    assert id in q.processing && id !in q.push && t[id] == Entry(q.processing[id], None);
    OwedNowLess(q.push, t, id);
    assert q.push - {id} == q.push;
    OwedNowLess(q.processing, t, id);
    OwedLaterLess(q.delayed, t, id);
    RemoveStored(q.push, q.processing, q.delayed, t, id);
    InProcessingLess(q.push, q.processing, q.inflight, h);
    ResembleLess(q.cfg, q.inflight, t, h);
    DistinctLess(q.inflight, h);
  }

  lemma HandOutIsSound(q: Queue, t: Table, j: Job)
    requires Keyed(t) && Owed(q, t) && HandedOut(q, t) && Fresh(q)
    requires j.id in t && t[j.id] == Entry(j, None) && j.id !in q.push && NoItem(q.inflight, j.id)
    ensures Owed(HandOut(q, j), t) && HandedOut(HandOut(q, j), t) && Fresh(HandOut(q, j))
  {
    var item := WithPriority(q.cfg, j);
    OwedNowMore(q.processing, t, j);
    assert t[j.id := Entry(j, None)] == t;
    InProcessingMore(q.push, q.processing, q.inflight, q.next, item, j);
    ResembleMore(q.cfg, q.inflight, t, q.next, j);
    DistinctMore(q.inflight, q.next, item);
    BelowMore(q.inflight, q.stale, q.next, item);
  }

  lemma BelowMore(inflight: Items, stale: Items, next: nat, item: Job)
    requires AllBelow(inflight, next) && AllBelow(stale, next)
    ensures AllBelow(inflight[next := item], next + 1) && AllBelow(stale, next + 1)
  {
  }

  // Steps

  lemma PushKeepsSound(q: Queue, t: Table, j: Job, key: string)
    requires Sound(q, t) && j.id !in t
    ensures Sound(DoPush(q, j, key), Put(t, j, key))
  {
    if j.delay > 0 {
      StoreLaterIsSound(q, t, key, j);
    } else {
      StoreNowIsSound(q, t, j);
    }
  }

  lemma TakeKeepsSound(q: Queue, t: Table, k: string)
    requires Sound(q, t) && q.checked > 0 && k in q.push
    ensures Sound(DoTake(q, k), t)
  {
    var j, q0 := q.push[k], q.(push := q.push - {k}, checked := q.checked - 1);
    assert j.id == k && NoItem(q.inflight, k);
    HandOutIsSound(q0, t, j);
  }

  lemma ReleaseStored(push: Bucket, processing: Bucket, delayed: Bucket, t: Table, k: string)
    requires Keyed(t) && StoredIn(push, processing, delayed, t) && OwedLater(delayed, t) && k in delayed
    ensures var j := delayed[k];
            Keyed(t[j.id := Entry(j, None)]) &&
            StoredIn(push, processing[j.id := j], delayed - {k}, t[j.id := Entry(j, None)])
  {
  }

  lemma ReleaseOwedNow(bucket: Bucket, t: Table, j: Job)
    requires OwedNow(bucket, t) && j.id !in bucket
    ensures OwedNow(bucket, t[j.id := Entry(j, None)])
  {
  }

  lemma ReleaseResemble(cfg: Config, inflight: Items, t: Table, j: Job)
    requires ResembleAll(cfg, inflight, t) && NoItem(inflight, j.id)
    ensures ResembleAll(cfg, inflight, t[j.id := Entry(j, None)])
  {
  }

  lemma ReleaseKeepsSound(q: Queue, t: Table, k: string)
    requires Sound(q, t) && k in q.delayed
    ensures q.delayed[k].id in t
    ensures Sound(DoRelease(q, k), t[q.delayed[k].id := t[q.delayed[k].id].(slot := None)])
  {
    var j := q.delayed[k];
    var q0, t' := q.(delayed := q.delayed - {k}), t[j.id := Entry(j, None)];
    assert t[j.id] == Entry(j, Some(k));
    assert j.id !in q.push && j.id !in q.processing && NoItem(q.inflight, j.id);
    ReleaseOwedNow(q.push, t, j);
    ReleaseOwedNow(q.processing, t, j);
    OwedLaterReleased(q.delayed, t, k);
    ReleaseResemble(q.cfg, q.inflight, t, j);
    ReleaseStored(q.push, q.processing, q.delayed, t, k);
    HandOutIsSound(q0, t', j);
  }

  lemma AckKeepsSound(q: Queue, t: Table, h: nat)
    requires Sound(q, t) && h in q.inflight
    ensures Sound(DoAck(q, h), t - {q.inflight[h].id})
  {
    RemoveIsSound(q, t, h);
  }

  lemma StoredRecord(q: Queue, t: Table, h: nat)
    requires Sound(q, t) && h in q.inflight
    ensures var id := q.inflight[h].id; id in q.processing && id in t && t[id] == Entry(q.processing[id], None)
    ensures t[q.inflight[h].id].job.id == q.inflight[h].id
  {
  }

  lemma NackPutsBack(q: Queue, t: Table, h: nat)
    requires h in q.inflight && q.inflight[h].id in q.processing && q.inflight[h].id in t
    requires t[q.inflight[h].id] == Entry(q.processing[q.inflight[h].id], None)
    ensures var id, r := q.inflight[h].id, Removed(q, h);
            DoNack(q, h) == r.(push := r.push[id := t[id].job]) && (t - {id})[id := Entry(t[id].job, None)] == t
  {
  }

  lemma NackKeepsSound(q: Queue, t: Table, h: nat)
    requires Sound(q, t) && h in q.inflight
    ensures Sound(DoNack(q, h), t)
  {
    var id := q.inflight[h].id;
    StoredRecord(q, t, h);
    RemoveIsSound(q, t, h);
    NackPutsBack(q, t, h);
    StoreNowIsSound(Removed(q, h), t - {id}, t[id].job);
  }

  /** Storing an item again is the same as storing it after taking the old entry out. */
  lemma PutAfterRemoval(t: Table, j: Job, key: string)
    ensures Put(t - {j.id}, j, key) == Put(t, j, key)
  {
    if j.delay > 0 {
      assert Evict(t - {j.id}, key)[j.id := Entry(j, Some(key))] == Evict(t, key)[j.id := Entry(j, Some(key))];
    } else {
      assert (t - {j.id})[j.id := Entry(j, None)] == t[j.id := Entry(j, None)];
    }
  }

  lemma RequeueKeepsSound(q: Queue, t: Table, h: nat, headers: Headers, delay: int, key: string)
    requires Sound(q, t) && h in q.inflight
    ensures q.inflight[h].id in t
    ensures Sound(DoRequeue(q, h, headers, delay, key),
                  Put(t, Amended(q.cfg, t[q.inflight[h].id].job, headers, delay), key))
  {
    var j := q.inflight[h].(headers := headers, delay := delay);
    assert j == Amended(q.cfg, t[j.id].job, headers, delay);
    RemoveIsSound(q, t, h);
    PutAfterRemoval(t, j, key);
    var q', t' := Removed(q, h), t - {j.id};
    if delay > 0 {
      StoreLaterIsSound(q', t', key, j);
    } else {
      StoreNowIsSound(q', t', j);
    }
  }

  lemma ReopenKeepsSound(q: Queue, t: Table, restart: bool)
    requires Sound(q, t)
    ensures Sound(DoReopen(q, restart), t)
  {
  }

  lemma RewrittenItem(cfg: Config, inflight: Items, t: Table, h: nat, headers: Headers, delay: int)
    requires ResembleAll(cfg, inflight, t) && h in inflight
    ensures ResembleAll(cfg, inflight[h := inflight[h].(headers := headers, delay := delay)], t)
  {
  }

  lemma RequeueFailsKeepsSound(q: Queue, t: Table, h: nat, headers: Headers, delay: int)
    requires Sound(q, t) && (h in q.inflight || h in q.stale)
    ensures Sound(DoRequeueFails(q, h, headers, delay), t)
  {
    if h in q.inflight {
      RewrittenItem(q.cfg, q.inflight, t, h, headers, delay);
    }
  }

  lemma DropKeepsSound(q: Queue, t: Table, h: nat)
    requires Sound(q, t)
    ensures Sound(DoDrop(q, h), t)
  {
  }

  lemma SettlementRefinesTable(q: Queue, t: Table, s: Step)
    requires Sound(q, t) && Possible(q, s) && (s.Ack? || s.Nack? || s.Requeue? || s.RequeueFails? || s.Drop?)
    ensures Sound(Next(q, s), TableNext(q, t, s))
  {
    if s.Ack? || s.Nack? {
      AnswerRefinesTable(q, t, s);
    } else if s.Requeue? {
      RequeueKeepsSound(q, t, s.h, s.headers, s.delay, s.key);
    } else if s.RequeueFails? {
      RequeueFailsKeepsSound(q, t, s.h, s.headers, s.delay);
    } else {
      DropKeepsSound(q, t, s.h);
    }
  }

  lemma AnswerRefinesTable(q: Queue, t: Table, s: Step)
    requires Sound(q, t) && Possible(q, s) && (s.Ack? || s.Nack?)
    ensures Sound(Next(q, s), TableNext(q, t, s))
  {
    if s.Ack? {
      AckKeepsSound(q, t, s.h);
    } else {
      NackKeepsSound(q, t, s.h);
    }
  }

  /** Every step of the driver takes the buckets from one table to the table the step stands for. */
  lemma StepRefinesTable(q: Queue, t: Table, s: Step)
    requires Sound(q, t) && Possible(q, s) && (s.Push? ==> s.job.id !in t)
    ensures Sound(Next(q, s), TableNext(q, t, s))
  {
    match s
    case Push(j, key) => PushKeepsSound(q, t, j, key);
    case Take(k) => TakeKeepsSound(q, t, k);
    case Release(k) => ReleaseKeepsSound(q, t, k);
    case Reopen(restart) => ReopenKeepsSound(q, t, restart);
    case Check =>
    case Yield =>
    case _ => SettlementRefinesTable(q, t, s);
  }
}
