/**
 Release of delayed jobs by the BoltDB driver: the cursor scan over printed due times, and when it
 releases a job.
 */
module BoltRelease {
  import opened Text
  import opened Calendar
  import opened BoltQueue

  /** The second a clock reading falls in. */
  function ClockSecond(now: nat): (t: nat)
    requires ClockOk(now)
    ensures Printable(t)
  {
    now / NANOS
  }

  /** The end of the scan at a clock reading. */
  function ScanEnd(now: nat): string
    requires ClockOk(now)
  {
    Format(ClockSecond(now))
  }

  predicate Between(k: string, lo: string, hi: string)
  {
    AtMost(lo, k) && AtMost(k, hi)
  }

  /** The keys that the delayed scan of one tick covers. */
  predicate InScan(k: string, now: nat)
    requires ClockOk(now)
  {
    Between(k, SCAN_START, ScanEnd(now))
  }

  /**
   Exact release: the byte-wise scan covers a delayed job exactly from the second it is due,
   provided its due time has not fallen before 1990.
   */
  lemma ReleasedExactlyWhenDue(pushed: nat, delay: int, now: nat)
    requires ClockOk(pushed) && DueOk(pushed, delay) && ClockOk(now) && delay > 0
    ensures InScan(DelayKey(pushed, delay), now) <==>
            1990 <= Year(DueSecond(pushed, delay)) && DueSecond(pushed, delay) <= now / NANOS
    ensures delay <= LARGEST_DELAY ==>
            (InScan(DelayKey(pushed, delay), now) <==> pushed / NANOS + delay <= now / NANOS)
  {
    var t := DueSecond(pushed, delay);
    ScanStartsAt1990(t);
    FormatOrder(t, ClockSecond(now));
    DueSecondExact(pushed, delay);
  }

  /**
   A delay that overflows the duration is due before the time asked for.  The job is lost, so that
   no tick of any clock covers it, exactly when that due time falls before 1990; otherwise it is
   released early, from that due time on.
   */
  lemma OverlongDelays(pushed: nat, delay: int, now: nat)
    requires ClockOk(pushed) && DueOk(pushed, delay) && delay > LARGEST_DELAY && ClockOk(now)
    ensures DueSecond(pushed, delay) < pushed / NANOS + delay
    ensures Year(DueSecond(pushed, delay)) < 1990 ==> !InScan(DelayKey(pushed, delay), now)
    ensures Year(DueSecond(pushed, delay)) >= 1990 ==>
            (InScan(DelayKey(pushed, delay), now) <==> DueSecond(pushed, delay) <= now / NANOS)
  {
    DueSecondExact(pushed, delay);
    ReleasedExactlyWhenDue(pushed, delay, now);
  }

  /** The first tick that releases such a job early. */
  lemma EarlyReleaseHappens(pushed: nat, delay: int)
    requires ClockOk(pushed) && DueOk(pushed, delay) && delay > LARGEST_DELAY
    requires Year(DueSecond(pushed, delay)) >= 1990
    ensures ClockOk(DueSecond(pushed, delay) * NANOS)
    ensures InScan(DelayKey(pushed, delay), DueSecond(pushed, delay) * NANOS)
  {
    var now := DueSecond(pushed, delay) * NANOS;
    assert now / NANOS == DueSecond(pushed, delay);
    OverlongDelays(pushed, delay, now);
  }

  lemma LaterYears(s: nat, t: nat)
    requires s <= t
    ensures Year(s) <= Year(t)
  {
    YearBound(s / SECONDS_PER_DAY, Year(s));
    YearBound(t / SECONDS_PER_DAY, Year(s));
  }

  lemma DueAtOnce(pushed: nat)
    requires ClockOk(pushed)
    ensures pushed / NANOS <= DueSecond(pushed, 18_446_744_074) <= (pushed + NANOS) / NANOS
  {
    assert Wrap64(18_446_744_074 * NANOS) == 290_448_384;
  }

  /** An overlong delay that is released within a second of the push. */
  lemma OverlongDelayReleasedAtOnce(pushed: nat)
    requires ClockOk(pushed) && ClockOk(pushed + NANOS)
    ensures DueOk(pushed, 18_446_744_074) && InScan(DelayKey(pushed, 18_446_744_074), pushed + NANOS)
  {
    DueAtOnce(pushed);
    LaterYears(pushed / NANOS, DueSecond(pushed, 18_446_744_074));
    LaterYears(DueSecond(pushed, 18_446_744_074), (pushed + NANOS) / NANOS);
    ReleasedExactlyWhenDue(pushed, 18_446_744_074, pushed + NANOS);
  }

  lemma {:induction false} YearsAreShort(y: nat, k: nat)
    ensures DaysBeforeYear(y + k) <= DaysBeforeYear(y) + 366 * k
  {
    if k > 0 {
      YearsAreShort(y, k - 1);
    }
  }

  lemma LongDelayDue(pushed: nat)
    requires ClockOk(pushed)
    ensures DueSecond(pushed, LARGEST_DELAY + 1) / SECONDS_PER_DAY <= pushed / NANOS / SECONDS_PER_DAY - 106751
  {
    assert Wrap64((LARGEST_DELAY + 1) * NANOS) == -9_223_372_036_709_551_616;
  }

  lemma LongBefore(day: nat, due: nat)
    requires due <= day - 106751 && 290 <= YearOf(day) < 2280
    ensures YearOf(due) < 1990
  {
    var y := YearOf(day);
    YearsAreShort(y - 290, 291);
    YearBound(due, y - 290);
  }

  /**
   A delay one second longer than a duration can hold wraps around: pushed before the year 2280 it
   falls before 1990, and no tick of any clock ever releases the job.
   */
  lemma OverlongDelayIsNeverReleased(pushed: nat, now: nat)
    requires ClockOk(pushed) && ClockOk(now) && Year(pushed / NANOS) < 2280
    ensures DueOk(pushed, LARGEST_DELAY + 1) && !InScan(DelayKey(pushed, LARGEST_DELAY + 1), now)
  {
    EveryDelayIsOk(pushed, LARGEST_DELAY + 1);
    LongDelayDue(pushed);
    LongBefore(pushed / NANOS / SECONDS_PER_DAY, DueSecond(pushed, LARGEST_DELAY + 1) / SECONDS_PER_DAY);
    OverlongDelays(pushed, LARGEST_DELAY + 1, now);
  }

  // Ticks

  /** What a scan up to a key leaves in the bucket. */
  function LeftBy(delayed: map<string, Job>, end: string): map<string, Job>
  {
    map x | x in delayed && !Between(x, SCAN_START, end) :: delayed[x]
  }

  /** The due time of a delayed job; the others have none. */
  function KeyFor(now: nat, delay: int): string
    requires ClockOk(now) && (delay > 0 ==> DueOk(now, delay))
  {
    if delay > 0 then DelayKey(now, delay) else ""
  }

  /**
   What is done to the delayed bucket, with the clock read at each step: storing a job under its due time,
   a tick of the delayed listener, or anything else.
   */
  datatype Timed =
    | Pushed(job: Job, now: nat)
    | Requeued(h: nat, headers: Headers, delay: int, now: nat)
    | Ticked(now: nat)
    | Other(step: Step)

  /** The clock can be printed, and so can the due time. */
  predicate InTime(op: Timed)
  {
    match op
    case Pushed(j, now) => ClockOk(now) && (j.delay > 0 ==> DueOk(now, j.delay))
    case Requeued(_, _, delay, now) => ClockOk(now) && (delay > 0 ==> DueOk(now, delay))
    case Ticked(now) => ClockOk(now)
    case Other(_) => true
  }

  /** The delay key the operation stores under, if it stores a delayed job. */
  function TimedKey(op: Timed): Option<string>
    requires InTime(op)
  {
    match op
    case Pushed(j, now) => if j.delay > 0 then Some(KeyFor(now, j.delay)) else None
    case Requeued(_, _, delay, now) => if delay > 0 then Some(KeyFor(now, delay)) else None
    case _ => None
  }

  /** What the operation does to the queue; a tick releases exactly what its scan covers. */
  ghost predicate Does(q: Queue, op: Timed, q': Queue)
    requires InTime(op)
  {
    match op
    case Pushed(j, now) => q' == DoPush(q, j, KeyFor(now, j.delay))
    case Requeued(h, headers, delay, now) =>
      h in q.inflight && q' == DoRequeue(q, h, headers, delay, KeyFor(now, delay))
    case Ticked(now) =>
      q'.delayed == LeftBy(q.delayed, ScanEnd(now)) && exists ks :: q' == Releases(q, ks)
    case Other(s) =>
      Possible(q, s) && !s.Push? && !s.Requeue? && !s.Release? && q' == Next(q, s)
  }

  ghost predicate TimedRun(qs: seq<Queue>, ops: seq<Timed>)
  {
    |qs| == |ops| + 1 && forall i | 0 <= i < |ops| :: InTime(ops[i]) && Does(qs[i], ops[i], qs[i + 1])
  }

  /** The tick covers the key. */
  predicate Covers(op: Timed, k: string)
    requires InTime(op)
  {
    op.Ticked? && Between(k, SCAN_START, ScanEnd(op.now))
  }

  lemma DelayedElsewhere(q: Queue, s: Step)
    requires Possible(q, s) && !s.Push? && !s.Requeue? && !s.Release?
    ensures Next(q, s).delayed == q.delayed
  {
  }

  /** A slot that nothing is stored into changes only by a tick that covers it. */
  lemma SlotStays(q: Queue, op: Timed, q': Queue, k: string)
    requires InTime(op) && Does(q, op, q') && TimedKey(op) != Some(k)
    ensures k in q'.delayed <==> k in q.delayed && !Covers(op, k)
    ensures k in q'.delayed ==> q'.delayed[k] == q.delayed[k]
  {
    if op.Other? {
      DelayedElsewhere(q, op.step);
    }
  }

  /** The slot stays as it is unless it is hit. */
  ghost predicate SlotStep(ms: seq<map<string, Job>>, hits: seq<bool>, m: nat, k: string)
    requires m < |hits| && m + 1 < |ms|
  {
    (k in ms[m + 1] <==> k in ms[m] && !hits[m]) && (k in ms[m + 1] ==> ms[m + 1][k] == ms[m][k])
  }

  lemma {:induction false} SlotThroughSteps(ms: seq<map<string, Job>>, hits: seq<bool>, i: nat, j: nat, k: string)
    requires i <= j <= |hits| < |ms| && forall m | i <= m < j :: SlotStep(ms, hits, m, k)
    ensures k in ms[j] <==> k in ms[i] && forall m | i <= m < j :: !hits[m]
    ensures k in ms[j] ==> k in ms[i] && ms[j][k] == ms[i][k]
    decreases j
  {
    if j > i {
      SlotThroughSteps(ms, hits, i, j - 1, k);
      assert SlotStep(ms, hits, j - 1, k);
    }
  }

  lemma CoveredExactly(op: Timed, pushed: nat, delay: int)
    requires InTime(op) && ClockOk(pushed) && 0 < delay <= LARGEST_DELAY && DueOk(pushed, delay)
    ensures Covers(op, KeyFor(pushed, delay)) <==> op.Ticked? && pushed / NANOS + delay <= op.now / NANOS
  {
    if op.Ticked? {
      ReleasedExactlyWhenDue(pushed, delay, op.now);
    }
  }

  /** The operation is a tick at or after that second. */
  predicate TicksFrom(op: Timed, second: int)
  {
    op.Ticked? && second <= op.now / NANOS
  }

  /** Nothing is stored into the slot by the operations from `i` to `j`. */
  ghost predicate SlotLeftAlone(ops: seq<Timed>, i: nat, j: nat, k: string)
    requires i <= j <= |ops|
  {
    forall m | i <= m < j :: InTime(ops[m]) && TimedKey(ops[m]) != Some(k)
  }

  lemma SlotWaits(qs: seq<Queue>, ops: seq<Timed>, i: nat, j: nat, stored: nat, delay: int)
    requires TimedRun(qs, ops) && i <= j <= |ops| && ClockOk(stored) && DueOk(stored, delay)
    requires 0 < delay <= LARGEST_DELAY && SlotLeftAlone(ops, i, j, KeyFor(stored, delay))
    requires KeyFor(stored, delay) in qs[i].delayed
    ensures KeyFor(stored, delay) in qs[j].delayed <==>
            forall m | i <= m < j :: !TicksFrom(ops[m], stored / NANOS + delay)
    ensures KeyFor(stored, delay) in qs[j].delayed ==>
            qs[j].delayed[KeyFor(stored, delay)] == qs[i].delayed[KeyFor(stored, delay)]
  {
    var k, due := KeyFor(stored, delay), stored / NANOS + delay;
    var ms := seq(|qs|, n requires 0 <= n < |qs| => qs[n].delayed);
    var hits := seq(|ops|, n requires 0 <= n < |ops| => TicksFrom(ops[n], due));
    forall m | i <= m < j ensures SlotStep(ms, hits, m, k) {
      SlotStaysUntilDue(qs[m], ops[m], qs[m + 1], stored, delay);
    }
    SlotThroughSteps(ms, hits, i, j, k);
    assert forall m | i <= m < j :: hits[m] == TicksFrom(ops[m], due);
  }

  /**
   From push to release, over all runs: unless another job is stored into its slot, a delayed job is in
   its bucket exactly as long as no tick has come in or after its due second.
   */
  lemma WaitsExactlyUntilDue(qs: seq<Queue>, ops: seq<Timed>, i: nat, j: nat, job: Job, pushed: nat)
    requires TimedRun(qs, ops) && i < j <= |ops| && ops[i] == Pushed(job, pushed) && InTime(ops[i])
    requires 0 < job.delay <= LARGEST_DELAY && SlotLeftAlone(ops, i + 1, j, KeyFor(pushed, job.delay))
    ensures KeyFor(pushed, job.delay) in qs[j].delayed <==>
            forall m | i < m < j :: !TicksFrom(ops[m], pushed / NANOS + job.delay)
    ensures KeyFor(pushed, job.delay) in qs[j].delayed ==> qs[j].delayed[KeyFor(pushed, job.delay)] == job
  {
    JustStored(qs[i], job, pushed, qs[i + 1]);
    SlotWaits(qs, ops, i + 1, j, pushed, job.delay);
  }

  /** And from a requeue with a delay: the job waits with the new headers and the new delay. */
  lemma RequeuedWaitsExactlyUntilDue(qs: seq<Queue>, ops: seq<Timed>, i: nat, j: nat, h: nat, headers: Headers,
                                     delay: int, now: nat)
    requires TimedRun(qs, ops) && i < j <= |ops| && ops[i] == Requeued(h, headers, delay, now) && InTime(ops[i])
    requires 0 < delay <= LARGEST_DELAY && SlotLeftAlone(ops, i + 1, j, KeyFor(now, delay))
    ensures KeyFor(now, delay) in qs[j].delayed <==>
            forall m | i < m < j :: !TicksFrom(ops[m], now / NANOS + delay)
    ensures KeyFor(now, delay) in qs[j].delayed ==>
            && h in qs[i].inflight
            && qs[j].delayed[KeyFor(now, delay)] == qs[i].inflight[h].(headers := headers, delay := delay)
  {
    JustRequeued(qs[i], ops[i], qs[i + 1]);
    SlotWaits(qs, ops, i + 1, j, now, delay);
  }

  lemma JustRequeued(q: Queue, op: Timed, q': Queue)
    requires op.Requeued? && InTime(op) && Does(q, op, q') && op.delay > 0
    ensures KeyFor(op.now, op.delay) in q'.delayed && op.h in q.inflight
    ensures q'.delayed[KeyFor(op.now, op.delay)] == q.inflight[op.h].(headers := op.headers, delay := op.delay)
  {
  }

  lemma SlotStaysUntilDue(q: Queue, op: Timed, q': Queue, pushed: nat, delay: int)
    requires InTime(op) && ClockOk(pushed) && 0 < delay <= LARGEST_DELAY && DueOk(pushed, delay)
    requires Does(q, op, q') && TimedKey(op) != Some(KeyFor(pushed, delay))
    ensures var k := KeyFor(pushed, delay);
            && (k in q'.delayed <==> k in q.delayed && !TicksFrom(op, pushed / NANOS + delay))
            && (k in q'.delayed ==> q'.delayed[k] == q.delayed[k])
  {
    SlotStays(q, op, q', KeyFor(pushed, delay));
    CoveredExactly(op, pushed, delay);
  }

  lemma JustStored(q: Queue, job: Job, pushed: nat, q': Queue)
    requires InTime(Pushed(job, pushed)) && Does(q, Pushed(job, pushed), q') && job.delay > 0
    ensures KeyFor(pushed, job.delay) in q'.delayed && q'.delayed[KeyFor(pushed, job.delay)] == job
  {
  }

  // Cursors

  predicate IsLeast(keys: set<string>, k: string)
  {
    k in keys && forall x | x in keys :: AtMost(k, x)
  }

  lemma {:induction false} LeastExists(keys: set<string>)
    requires keys != {}
    ensures exists k :: IsLeast(keys, k)
    decreases |keys|
  {
    var k :| k in keys;
    if keys == {k} {
      assert IsLeast(keys, k);
    } else {
      LeastExists(keys - {k});
      var m :| IsLeast(keys - {k}, m);
      LessTotal(k, m);
      if Less(k, m) {
        forall x | x in keys ensures AtMost(k, x) {
          assert x == k || x in keys - {k};
          if x != k && x != m {
            LessTransitive(k, m, x);
          }
        }
        assert IsLeast(keys, k);
      } else {
        assert IsLeast(keys, m);
      }
    }
  }

  lemma LeastIsUnique(keys: set<string>)
    ensures forall k, l | IsLeast(keys, k) && IsLeast(keys, l) :: k == l
  {
    forall k, l | IsLeast(keys, k) && IsLeast(keys, l) ensures k == l {
      if k != l {
        LessAsymmetric(k, l);
      }
    }
  }

  function Least(keys: set<string>): (k: string)
    requires keys != {}
    ensures IsLeast(keys, k)
  {
    LeastExists(keys);
    LeastIsUnique(keys);
    var k :| k in keys && IsLeast(keys, k);
    k
  }

  /** `cursor.Seek(start)`: the first key at or after `start`. */
  function Seek(keys: set<string>, start: string): (r: Option<string>)
    ensures r.None? ==> forall x | x in keys :: !AtMost(start, x)
    ensures r.Some? ==> r.value in keys && AtMost(start, r.value)
    ensures r.Some? ==> forall x | x in keys && AtMost(start, x) :: AtMost(r.value, x)
  {
    var rest := set x | x in keys && AtMost(start, x);
    assert forall x | x in keys && AtMost(start, x) :: x in rest;
    if rest == {} then None else Some(Least(rest))
  }

  /** `cursor.Next()`: the first key after the current one, which may have been deleted. */
  function Following(keys: set<string>, k: string): (r: Option<string>)
    ensures r.None? ==> forall x | x in keys :: !Less(k, x)
    ensures r.Some? ==> r.value in keys && Less(k, r.value)
    ensures r.Some? ==> forall x | x in keys && Less(k, x) :: AtMost(r.value, x)
  {
    var rest := set x | x in keys && Less(k, x);
    assert forall x | x in keys && Less(k, x) :: x in rest;
    if rest == {} then None else Some(Least(rest))
  }

  /** Release of the jobs under the given keys, one after the other. */
  function Releases(q: Queue, ks: seq<string>): Queue
  {
    if ks == [] then q
    else
      var r := Releases(q, ks[..|ks| - 1]);
      var k := ks[|ks| - 1];
      if k in r.delayed then DoRelease(r, k) else r
  }

  /** One more key released. */
  lemma ReleasesMore(q: Queue, ks: seq<string>, k: string)
    requires k in q.delayed && Releases(q, ks).delayed == q.delayed - (set x | x in ks) && k !in ks
    ensures k in Releases(q, ks).delayed
    ensures Releases(q, ks + [k]) == DoRelease(Releases(q, ks), k)
    ensures Releases(q, ks + [k]).delayed == q.delayed - (set x | x in ks + [k])
  {
    assert (ks + [k])[..|ks|] == ks;
    assert (set x | x in ks + [k]) == (set x | x in ks) + {k};
  }

  ghost predicate Ascending(ks: seq<string>)
  {
    forall i, j | 0 <= i < j < |ks| :: Less(ks[i], ks[j])
  }

  /** How far a scan from `lo` to `hi` has come: the keys released, and the key the cursor stands on. */
  ghost predicate Scanned(keys: set<string>, lo: string, hi: string, ks: seq<string>, k: Option<string>)
  {
    && Ascending(ks)
    && (forall x | x in ks :: x in keys && Between(x, lo, hi))
    && (forall x | x in keys && AtMost(lo, x) :: x in ks || (k.Some? && AtMost(k.value, x)))
    && (k.Some? ==> k.value in keys && AtMost(lo, k.value) && forall x | x in ks :: Less(x, k.value))
  }

  lemma StartBelow(lo: string, k: string, x: string)
    requires AtMost(lo, k) && Less(k, x)
    ensures AtMost(lo, x)
  {
    if lo != k {
      LessTransitive(lo, k, x);
    }
  }

  lemma ScanAdvances(keys: set<string>, lo: string, hi: string, ks: seq<string>, k: string, rest: set<string>)
    requires Scanned(keys, lo, hi, ks, Some(k)) && AtMost(k, hi)
    requires rest == keys - (set x | x in ks + [k])
    ensures Scanned(keys, lo, hi, ks + [k], Following(rest, k))
  {
    var next := Following(rest, k);
    var ks' := ks + [k];
    forall i, j | 0 <= i < j < |ks'| ensures Less(ks'[i], ks'[j]) {
      if j == |ks| {
        assert ks[i] in ks;
      }
    }
    forall x | x in keys && AtMost(lo, x) && x !in ks' ensures next.Some? && AtMost(next.value, x) {
      assert x in rest && Less(k, x);
    }
    if next.Some? {
      StartBelow(lo, k, next.value);
      forall x | x in ks' ensures Less(x, next.value) {
        if x != k {
          LessTransitive(x, k, next.value);
        }
      }
    }
  }

  /** When the cursor runs out or passes the end, exactly the keys in the scan have been released. */
  lemma ScanEnds(keys: set<string>, lo: string, hi: string, ks: seq<string>, k: Option<string>)
    requires Scanned(keys, lo, hi, ks, k) && (k.Some? ==> !AtMost(k.value, hi))
    ensures forall x | x in keys :: x in ks <==> Between(x, lo, hi)
  {
    forall x | x in keys ensures x in ks <==> Between(x, lo, hi) {
      if Between(x, lo, hi) && x !in ks {
        if x != k.value && x != hi {
          LessTransitive(k.value, x, hi);
        }
      }
    }
  }

  lemma CursorKeyIsLeft(keys: set<string>, lo: string, hi: string, ks: seq<string>, k: string)
    requires Scanned(keys, lo, hi, ks, Some(k))
    ensures k in keys && k !in ks
  {
    LessIrreflexive(k);
  }

  /** The state of a scan: `r` is `q` with the jobs under `ks` released, and the cursor is at `k`. */
  ghost predicate Progress(q: Queue, r: Queue, lo: string, hi: string, ks: seq<string>, k: Option<string>)
  {
    && r == Releases(q, ks) && r.delayed == q.delayed - (set x | x in ks)
    && Scanned(q.delayed.Keys, lo, hi, ks, k)
  }

  lemma ProgressStarts(q: Queue, lo: string, hi: string)
    ensures Progress(q, q, lo, hi, [], Seek(q.delayed.Keys, lo))
  {
  }

  lemma ProgressMoves(q: Queue, r: Queue, lo: string, hi: string, ks: seq<string>, k: string)
    requires Progress(q, r, lo, hi, ks, Some(k)) && AtMost(k, hi)
    ensures k in r.delayed && |DoRelease(r, k).delayed| < |r.delayed|
    ensures Progress(q, DoRelease(r, k), lo, hi, ks + [k], Following(DoRelease(r, k).delayed.Keys, k))
  {
    CursorKeyIsLeft(q.delayed.Keys, lo, hi, ks, k);
    ReleasesMore(q, ks, k);
    ScanAdvances(q.delayed.Keys, lo, hi, ks, k, DoRelease(r, k).delayed.Keys);
    assert DoRelease(r, k).delayed.Keys == r.delayed.Keys - {k};
  }

  lemma ProgressEnds(q: Queue, r: Queue, lo: string, hi: string, ks: seq<string>, k: Option<string>)
    requires Progress(q, r, lo, hi, ks, k) && (k.Some? ==> !AtMost(k.value, hi))
    ensures r == Releases(q, ks) && Ascending(ks)
    ensures forall x | x in q.delayed :: x in ks <==> Between(x, lo, hi)
    ensures r.delayed == map x | x in q.delayed && !Between(x, lo, hi) :: q.delayed[x]
  {
    ScanEnds(q.delayed.Keys, lo, hi, ks, k);
  }
}
