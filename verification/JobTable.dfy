/**
 What the driver owes its callers, without buckets, handles or counters: a table of the accepted
 jobs that have been neither acknowledged nor overwritten, and the totals of each kind.
 */
module JobTable {
  import opened Text
  import opened BoltQueue

  /** A job as it was last stored, with its delay slot while it is waiting for one. */
  datatype Entry = Entry(job: Job, slot: Option<string>)

  type Table = map<string, Entry>

  /** A delay slot holds one job: storing another one there loses the first. */
  function Evict(t: Table, key: string): Table
  {
    map id | id in t && t[id].slot != Some(key) :: t[id]
  }

  /** Stores a job under its identifier, in a delay slot when it is delayed. */
  function Put(t: Table, j: Job, key: string): Table
  {
    if j.delay > 0 then
      Evict(t, key)[j.id := Entry(j, Some(key))]
    else
      t[j.id := Entry(j, None)]
  }

  /** Requeueing rewrites headers, delay and a missing priority, and nothing else. */
  function Amended(cfg: Config, j: Job, headers: Headers, delay: int): Job
  {
    WithPriority(cfg, j).(headers := headers, delay := delay)
  }

  predicate SameJob(a: Job, b: Job)
  {
    a.id == b.id && a.name == b.name && a.payload == b.payload && a.pipeline == b.pipeline
  }

  /** Jobs without a delay, which the `active` counter is meant to count. */
  function Immediate(t: Table): set<string>
  {
    set id | id in t && t[id].job.delay <= 0
  }

  /** Totals since the database was created, and the figures at the start of the session. */
  datatype Totals = Totals(accepted: nat, acked: nat, overwritten: nat)
  datatype Opening = Opening(
    live: nat,
    immediate: nat,
    overwritten: nat,
    requeued: bool,     // an item of this session has been requeued, or a requeue of one has failed
    drift: int)         // how far requeues have carried `active` away from the immediate jobs

  datatype World = World(q: Queue, t: Table, totals: Totals, open: Opening)

  /** The identifier an item carries, for the steps that settle one. */
  function ItemId(q: Queue, h: nat): string
  {
    if h in q.inflight then q.inflight[h].id else ""
  }

  /** How many jobs storing `j` loses. */
  function Evicted(t: Table, j: Job, key: string): nat
  {
    if j.delay > 0 then |Holders(t, key)| else 0
  }

  function Holders(t: Table, key: string): set<string>
  {
    set id | id in t && t[id].slot == Some(key)
  }

  /** The effect of a step on the table. */
  function TableNext(q: Queue, t: Table, s: Step): Table
    requires Possible(q, s)
  {
    match s
    case Push(j, key) => Put(t, j, key)
    case Release(k) =>
      var id := q.delayed[k].id;
      if id in t then t[id := t[id].(slot := None)] else t
    case Ack(h) => t - {ItemId(q, h)}
    case Requeue(h, headers, delay, key) =>
      var id := ItemId(q, h);
      if id in t then Put(t, Amended(q.cfg, t[id].job, headers, delay), key) else t
    case _ => t
  }

  /** The caller's side of the bargain: identifiers of live jobs are distinct. */
  predicate Allowed(w: World, s: Step)
  {
    Possible(w.q, s) && (s.Push? ==> s.job.id !in w.t)
  }

  /** How many jobs a step takes in and settles, and how many it loses. */
  function Gained(s: Step): int
  {
    if s.Push? then 1 else if s.Ack? then -1 else 0
  }

  function Lost(q: Queue, t: Table, s: Step): nat
    requires Possible(q, s)
  {
    match s
    case Push(j, key) => Evicted(t, j, key)
    case Requeue(h, _, delay, key) => Evicted(t, q.inflight[h].(delay := delay), key)
    case _ => 0
  }

  function TotalsNext(w: World, s: Step): Totals
    requires Possible(w.q, s)
  {
    Totals(w.totals.accepted + if s.Push? then 1 else 0,
           w.totals.acked + if s.Ack? then 1 else 0,
           w.totals.overwritten + Lost(w.q, w.t, s))
  }

  /** One for a job that `active` is meant to count. */
  function Weight(delay: int): int
  {
    if delay > 0 then 0 else 1
  }

  /** The step requeues an item of this session, or fails to. */
  predicate Requeues(q: Queue, s: Step)
  {
    s.Requeue? || (s.RequeueFails? && s.h in q.inflight)
  }

  /**
   How far a step carries `active` away from the immediate jobs: a requeue changes the delay of a
   job and no counter, and an acknowledgement discounts by the delay of the item, which a failed
   requeue has rewritten, rather than of the record.
   */
  function DriftBy(q: Queue, t: Table, s: Step): int
    requires Possible(q, s)
  {
    match s
    case Ack(h) =>
      var id := ItemId(q, h);
      if id in t then Weight(t[id].job.delay) - Weight(q.inflight[h].delay) else 0
    case Requeue(h, _, delay, _) =>
      var id := ItemId(q, h);
      if id in t then Weight(t[id].job.delay) - Weight(delay) else 0
    case _ => 0
  }

  function OpenNext(w: World, s: Step): Opening
    requires Possible(w.q, s)
  {
    if s.Reopen? then Opening(|w.t|, |Immediate(w.t)|, w.totals.overwritten, false, 0)
    else w.open.(requeued := w.open.requeued || Requeues(w.q, s), drift := w.open.drift + DriftBy(w.q, w.t, s))
  }

  function Advance(w: World, s: Step): World
    requires Possible(w.q, s)
  {
    World(Next(w.q, s), TableNext(w.q, w.t, s), TotalsNext(w, s), OpenNext(w, s))
  }

  /** A new database, opened for the first time. */
  predicate Initial(w: World)
  {
    && w.t == map[] && w.totals == Totals(0, 0, 0) && w.open == Opening(0, 0, 0, false, 0)
    && w.q == Queue(w.q.cfg, map[], map[], map[], {}, map[], map[], w.q.next, 0, 0, 0)
  }

  ghost predicate Follows(ws: seq<World>, steps: seq<Step>, i: nat)
    requires i + 1 < |ws| && i < |steps|
  {
    Allowed(ws[i], steps[i]) && ws[i + 1] == Advance(ws[i], steps[i])
  }

  /** A run: every state follows from the one before by an allowed step. */
  ghost predicate Run(ws: seq<World>, steps: seq<Step>)
  {
    && |ws| == |steps| + 1
    && Initial(ws[0])
    && forall i | 0 <= i < |steps| :: Follows(ws, steps, i)
  }
}
