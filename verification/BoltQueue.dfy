/**
 The BoltDB jobs driver as a state machine.

 Three persisted buckets, the items that left them (in a listener's hand, in the priority queue
 or with a poller), two wrapping counters, and one transition per committed transaction or
 unguarded memory access.  bbolt runs one writing transaction at a time, so a transaction is one
 transition; the counters move inside it.  Encoding and decoding a record are exact inverses and
 are left implicit: a bucket maps a key to the job that its bytes decode to.
 */
module BoltQueue {
  import opened Text

  type Headers = map<string, seq<string>>

  datatype Job = Job(
    id: string,
    name: string,
    payload: string,
    headers: Headers,
    pipeline: string,
    priority: int,
    delay: int)

  const WORD: int := 0x1_0000_0000_0000_0000

  /** `atomic.AddUint64(c, 1)` and `atomic.AddUint64(c, ^uint64(0))`, which wrap around. */
  function Up(c: nat): nat
  {
    if c >= WORD - 1 then 0 else c + 1
  }

  function Down(c: nat): nat
  {
    if c == 0 then WORD - 1 else c - 1
  }

  /** The driver's settings; `listeners` bounds the listener goroutines alive at one time. */
  datatype Config = Config(prefetch: nat, priority: int, listeners: nat)

  datatype Queue = Queue(
    cfg: Config,
    // persisted
    push: map<string, Job>,
    processing: map<string, Job>,
    delayed: map<string, Job>,
    blanks: set<string>,        // keys put into `push` with an empty value
    // in memory
    inflight: map<nat, Job>,    // items handed out in this session, by their address
    stale: map<nat, Job>,       // items of earlier sessions of the same process, database closed
    next: nat,                  // a fresh address
    checked: nat,               // listeners between the counter check and their transaction
    active: nat,
    waiting: nat)               // the `delayed` counter

  /** A record without a priority inherits the pipeline's when it is handed out. */
  function WithPriority(cfg: Config, j: Job): Job
  {
    if j.priority == 0 then j.(priority := cfg.priority) else j
  }

  /** `key` is the due time of a delayed job, and unused for the others. */
  function DoPush(q: Queue, j: Job, key: string): Queue
  {
    if j.delay > 0 then
      q.(delayed := q.delayed[key := j], waiting := Up(q.waiting))
    else
      q.(push := q.push[j.id := j], active := Up(q.active))
  }

  /** The listener passes the prefetch check. */
  function DoCheck(q: Queue): Queue
  {
    q.(checked := q.checked + 1)
  }

  /** The listener found the bucket empty, or its transaction did not begin or commit. */
  function DoYield(q: Queue): Queue
    requires q.checked > 0
  {
    q.(checked := q.checked - 1)
  }

  /** A record is put into `processing` and its item handed out under a fresh address. */
  function HandOut(q: Queue, j: Job): Queue
  {
    q.(processing := q.processing[j.id := j],
       inflight := q.inflight[q.next := WithPriority(q.cfg, j)],
       next := q.next + 1)
  }

  /** The record of an item is deleted from `processing` and the item is gone. */
  function Removed(q: Queue, h: nat): Queue
    requires h in q.inflight
  {
    q.(processing := q.processing - {q.inflight[h].id}, inflight := q.inflight - {h})
  }

  /** The listener moves the record under key `k` to `processing` and hands it out. */
  function DoTake(q: Queue, k: string): Queue
    requires q.checked > 0 && k in q.push
  {
    HandOut(q.(push := q.push - {k}, checked := q.checked - 1), q.push[k])
  }

  /** The delayed listener moves one record to `processing` and hands it out. */
  function DoRelease(q: Queue, k: string): Queue
    requires k in q.delayed
  {
    HandOut(q.(delayed := q.delayed - {k}), q.delayed[k])
  }

  function DoAck(q: Queue, h: nat): Queue
    requires h in q.inflight
  {
    if q.inflight[h].delay > 0 then Removed(q, h).(waiting := Down(q.waiting))
    else Removed(q, h).(active := Down(q.active))
  }

  /** `Get` of a missing key yields no bytes, and `Put` would then store an empty record. */
  function DoNack(q: Queue, h: nat): Queue
    requires h in q.inflight
  {
    var id := q.inflight[h].id;
    if id in q.processing then Removed(q, h).(push := q.push[id := q.processing[id]])
    else Removed(q, h).(push := q.push - {id}, blanks := q.blanks + {id})
  }

  function DoRequeue(q: Queue, h: nat, headers: Headers, delay: int, key: string): Queue
    requires h in q.inflight
  {
    var item := q.inflight[h].(headers := headers, delay := delay);
    if delay > 0 then Removed(q, h).(delayed := q.delayed[key := item])
    else Removed(q, h).(push := q.push[item.id := item])
  }

  /** A requeue whose transaction fails has already rewritten the item in memory. */
  function DoRequeueFails(q: Queue, h: nat, headers: Headers, delay: int): Queue
    requires h in q.inflight || h in q.stale
  {
    if h in q.inflight then q.(inflight := q.inflight[h := q.inflight[h].(headers := headers, delay := delay)])
    else q.(stale := q.stale[h := q.stale[h].(headers := headers, delay := delay)])
  }

  /** The poller forgets an item: `Respond` is a no-op, and a failed settlement changes nothing. */
  function DoDrop(q: Queue, h: nat): Queue
  {
    q.(inflight := q.inflight - {h}, stale := q.stale - {h})
  }

  /**
   Close and open again.  Recovery copies `processing` into `push` and keeps the originals; the
   counters start from zero.  A restarted process has an empty priority queue, a pipeline that is
   destroyed and declared again keeps the old items, whose database is closed.
   */
  function DoReopen(q: Queue, restart: bool): Queue
  {
    q.(push := q.push + q.processing,
       inflight := map[],
       stale := if restart then map[] else q.stale + q.inflight,
       checked := 0,
       active := 0,
       waiting := 0)
  }

  datatype Step =
    | Push(job: Job, key: string)
    | Check
    | Yield
    | Take(key: string)
    | Release(key: string)
    | Ack(h: nat)
    | Nack(h: nat)
    | Requeue(h: nat, headers: Headers, delay: int, key: string)
    | RequeueFails(h: nat, headers: Headers, delay: int)
    | Drop(h: nat)
    | Reopen(restart: bool)

  /** `k` is what `Cursor().First()` returns. */
  predicate IsFirst(bucket: map<string, Job>, k: string)
  {
    k in bucket && forall x {:trigger AtMost(k, x)} | x in bucket :: AtMost(k, x)
  }

  /**
   When the code can take the step, whatever the identifiers of the jobs are.  Due times are left
   free here: any key may be used and any delayed job may be released, so that what is proved of
   all runs holds for every clock.  Module BoltRelease says which keys the clock gives.
   */
  predicate Possible(q: Queue, s: Step)
  {
    match s
    case Push(_, _) => true
    case Check => q.active <= q.cfg.prefetch && q.checked < q.cfg.listeners
    case Yield => q.checked > 0
    case Take(k) => q.checked > 0 && IsFirst(q.push, k)
    case Release(k) => k in q.delayed
    case Ack(h) => h in q.inflight
    case Nack(h) => h in q.inflight
    case Requeue(h, _, _, _) => h in q.inflight
    case RequeueFails(h, _, _) => h in q.inflight || h in q.stale
    case Drop(h) => h in q.inflight || h in q.stale
    case Reopen(_) => true
  }

  function Next(q: Queue, s: Step): Queue
    requires Possible(q, s)
  {
    match s
    case Push(j, key) => DoPush(q, j, key)
    case Check => DoCheck(q)
    case Yield => DoYield(q)
    case Take(k) => DoTake(q, k)
    case Release(k) => DoRelease(q, k)
    case Ack(h) => DoAck(q, h)
    case Nack(h) => DoNack(q, h)
    case Requeue(h, headers, delay, key) => DoRequeue(q, h, headers, delay, key)
    case RequeueFails(h, headers, delay) => DoRequeueFails(q, h, headers, delay)
    case Drop(h) => DoDrop(q, h)
    case Reopen(restart) => DoReopen(q, restart)
  }
}
