/**
 What a delivered item carries: the record that was stored, whole, with the pipeline's priority where the
 record has none.  It keeps carrying that until it is settled, and only a requeue that fails rewrites it.
 */
module BoltItems {
  import opened Text
  import opened BoltQueue
  import opened BoltRelease
  import opened JobTable
  import opened BoltSafety
  import opened BoltRuns
  import opened BoltHands

  /** The item is the record, but for a priority of zero, which the pipeline's replaces. */
  predicate Carries(cfg: Config, item: Job, r: Job)
  {
    && item.(priority := r.priority) == r
    && item.priority == if r.priority == 0 then cfg.priority else r.priority
  }

  /** The record that a delivery takes. */
  function Taken(q: Queue, s: Step): Job
    requires (s.Take? && s.key in q.push) || (s.Release? && s.key in q.delayed)
  {
    if s.Take? then q.push[s.key] else q.delayed[s.key]
  }

  /** A delivery adds one item, which carries the record, and moves the record to `processing` as it is. */
  lemma DeliveryCarries(q: Queue, s: Step)
    requires Possible(q, s) && (s.Take? || s.Release?)
    ensures var r := Taken(q, s);
            && Next(q, s).inflight.Keys == q.inflight.Keys + {q.next}
            && Carries(q.cfg, Next(q, s).inflight[q.next], r)
            && (forall h | h in q.inflight && h != q.next :: Next(q, s).inflight[h] == q.inflight[h])
            && Next(q, s).processing == q.processing[r.id := r]
  {
  }

  // The item in hand

  /** The step is a requeue of the item that fails. */
  predicate Spoils(s: Step, h: nat)
  {
    s.RequeueFails? && s.h == h
  }

  lemma SettlingLeavesOthers(q: Queue, s: Step, h: nat)
    requires Possible(q, s) && (s.Ack? || s.Nack? || s.Requeue?) && h in Next(q, s).inflight
    ensures h in q.inflight && h != s.h && Next(q, s).inflight[h] == q.inflight[h]
  {
    RemovedItems(q, s);
  }

  /** Nothing but a failed requeue rewrites an item, and only a delivery adds one. */
  lemma ItemStays(q: Queue, s: Step, h: nat)
    requires Possible(q, s) && h in Next(q, s).inflight && h != q.next && !Spoils(s, h)
    ensures h in q.inflight && Next(q, s).inflight[h] == q.inflight[h]
  {
    if s.Ack? || s.Nack? || s.Requeue? {
      SettlingLeavesOthers(q, s, h);
    } else if s.Take? || s.Release? {
      DeliveryCarries(q, s);
    }
  }

  lemma SettledRecord(q: Queue, s: Step)
    requires Possible(q, s) && (s.Ack? || s.Nack? || s.Requeue?)
    ensures Next(q, s).processing == q.processing - {q.inflight[s.h].id}
  {
    if s.Ack? {
      assert DoAck(q, s.h).processing == q.processing - {q.inflight[s.h].id};
    } else if s.Nack? {
      assert DoNack(q, s.h).processing == q.processing - {q.inflight[s.h].id};
    }
  }

  lemma SettlingLeavesRecords(q: Queue, s: Step, h: nat)
    requires Distinct(q.inflight) && Possible(q, s) && (s.Ack? || s.Nack? || s.Requeue?)
    requires h in q.inflight && h in Next(q, s).inflight && q.inflight[h].id in q.processing
    ensures var id := q.inflight[h].id;
            id in Next(q, s).processing && Next(q, s).processing[id] == q.processing[id]
  {
    SettlingLeavesOthers(q, s, h);
    SettledRecord(q, s);
  }

  lemma DeliveryLeavesRecords(q: Queue, t: Table, s: Step, h: nat)
    requires Sound(q, t) && Possible(q, s) && (s.Take? || s.Release?) && h in q.inflight
    ensures Taken(q, s).id != q.inflight[h].id
  {
    if s.Take? {
      assert q.push[s.key].id == s.key;
    } else {
      assert t[q.delayed[s.key].id].slot == Some(s.key);
    }
  }

  lemma RecordsElsewhere(q: Queue, s: Step)
    requires Possible(q, s) && !s.Ack? && !s.Nack? && !s.Requeue? && !s.Take? && !s.Release?
    ensures Next(q, s).processing == q.processing
  {
  }

  /** The record of an item in hand is not touched. */
  lemma RecordStays(q: Queue, t: Table, s: Step, h: nat)
    requires Sound(q, t) && Possible(q, s) && h in q.inflight && h in Next(q, s).inflight
    ensures var id := q.inflight[h].id;
            id in q.processing && id in Next(q, s).processing && Next(q, s).processing[id] == q.processing[id]
  {
    if s.Ack? || s.Nack? || s.Requeue? {
      SettlingLeavesRecords(q, s, h);
    } else if s.Take? || s.Release? {
      DeliveryCarries(q, s);
      DeliveryLeavesRecords(q, t, s, h);
    } else {
      RecordsElsewhere(q, s);
    }
  }

  lemma ItemInRun(ws: seq<World>, steps: seq<Step>, j: nat, h: nat)
    requires Run(ws, steps) && j < |steps| && h in ws[j + 1].q.inflight && h != ws[j].q.next
    ensures h in ws[j].q.inflight && ws[j + 1].q.inflight[h].id == ws[j].q.inflight[h].id
    ensures !Spoils(steps[j], h) ==> ws[j + 1].q.inflight[h] == ws[j].q.inflight[h]
  {
    RunStep(ws, steps, j);
    if !Spoils(steps[j], h) {
      ItemStays(ws[j].q, steps[j], h);
    }
  }

  /** The item in hand after a step, which does not rewrite it, and its record. */
  lemma ItemAndRecordStay(ws: seq<World>, steps: seq<Step>, j: nat, h: nat)
    requires Run(ws, steps) && j < |steps| && h in ws[j + 1].q.inflight && h != ws[j].q.next
    ensures h in ws[j].q.inflight && ws[j + 1].q.inflight[h].id == ws[j].q.inflight[h].id
    ensures !Spoils(steps[j], h) ==> ws[j + 1].q.inflight[h] == ws[j].q.inflight[h]
    ensures var id := ws[j].q.inflight[h].id;
            && id in ws[j].q.processing && id in ws[j + 1].q.processing
            && ws[j + 1].q.processing[id] == ws[j].q.processing[id]
  {
    ItemInRun(ws, steps, j, h);
    RunStep(ws, steps, j);
    RecordStays(ws[j].q, ws[j].t, steps[j], h);
  }

  lemma AddressesGrow(q: Queue, s: Step)
    requires Possible(q, s)
    ensures Next(q, s).next >= q.next && Next(q, s).cfg == q.cfg
    ensures s.Take? || s.Release? ==> Next(q, s).next > q.next
  {
  }

  lemma {:induction false} AddressIsPast(ws: seq<World>, steps: seq<Step>, i: nat, j: nat)
    requires Run(ws, steps) && i < j <= |steps| && (steps[i].Take? || steps[i].Release?)
    ensures ws[j].q.next > ws[i].q.next && ws[j].q.cfg == ws[i].q.cfg
    decreases j
  {
    RunStep(ws, steps, j - 1);
    AddressesGrow(ws[j - 1].q, steps[j - 1]);
    if j > i + 1 {
      AddressIsPast(ws, steps, i, j - 1);
    }
  }

  /**
   From the step that hands a job out, and for as long as the item is in hand, `processing` holds the
   record that was taken.  The item carries that record, unless a requeue of it has failed.
   */
  lemma {:induction false} ItemCarriesTheRecord(ws: seq<World>, steps: seq<Step>, i: nat, j: nat)
    requires Run(ws, steps) && i < j <= |steps| && (steps[i].Take? || steps[i].Release?)
    requires ws[i].q.next in ws[j].q.inflight
    ensures (steps[i].Take? && steps[i].key in ws[i].q.push) || (steps[i].Release? && steps[i].key in ws[i].q.delayed)
    ensures var r, h := Taken(ws[i].q, steps[i]), ws[i].q.next;
            && ws[j].q.inflight[h].id == r.id
            && r.id in ws[j].q.processing && ws[j].q.processing[r.id] == r
            && ((forall m | i < m < j :: !Spoils(steps[m], h)) ==> Carries(ws[j].q.cfg, ws[j].q.inflight[h], r))
    decreases j
  {
    var h := ws[i].q.next;
    RunStep(ws, steps, i);
    if j == i + 1 {
      DeliveryCarries(ws[i].q, steps[i]);
      AddressesGrow(ws[i].q, steps[i]);
    } else {
      AddressIsPast(ws, steps, i, j - 1);
      ItemAndRecordStay(ws, steps, j - 1, h);
      ItemCarriesTheRecord(ws, steps, i, j - 1);
      AddressIsPast(ws, steps, i, j);
    }
  }

  lemma FailureRewrites(ws: seq<World>, steps: seq<Step>, i: nat)
    requires Run(ws, steps) && i < |steps| && steps[i].RequeueFails? && steps[i].h in ws[i].q.inflight
    ensures steps[i].h in ws[i + 1].q.inflight
    ensures ws[i + 1].q.inflight[steps[i].h] ==
            ws[i].q.inflight[steps[i].h].(headers := steps[i].headers, delay := steps[i].delay)
  {
    RunStep(ws, steps, i);
  }

  /** After a failed requeue the item in hand has the headers and the delay of the last one that failed. */
  lemma {:induction false} ItemCarriesTheFailedRequeue(ws: seq<World>, steps: seq<Step>, i: nat, j: nat)
    requires Run(ws, steps) && i < j <= |steps| && steps[i].RequeueFails? && steps[i].h in ws[i].q.inflight
    requires forall m | i < m < j :: !Spoils(steps[m], steps[i].h)
    requires steps[i].h in ws[j].q.inflight
    ensures ws[j].q.inflight[steps[i].h] ==
            ws[i].q.inflight[steps[i].h].(headers := steps[i].headers, delay := steps[i].delay)
    decreases j
  {
    var h := steps[i].h;
    if j == i + 1 {
      FailureRewrites(ws, steps, i);
    } else {
      NextIsAbove(ws, steps, i, j - 1, h);
      ItemInRun(ws, steps, j - 1, h);
      ItemCarriesTheFailedRequeue(ws, steps, i, j - 1);
    }
  }

  lemma {:induction false} NextIsAbove(ws: seq<World>, steps: seq<Step>, i: nat, j: nat, h: nat)
    requires Run(ws, steps) && i <= j <= |steps| && h in ws[i].q.inflight
    ensures ws[j].q.next > h
    decreases j
  {
    if j == i {
      ReachableIsGood(ws, steps, i);
    } else {
      NextIsAbove(ws, steps, i, j - 1, h);
      RunStep(ws, steps, j - 1);
      AddressesGrow(ws[j - 1].q, steps[j - 1]);
    }
  }

  // A scan

  /** The item at `h` carries the record. */
  predicate Holds(cfg: Config, items: Items, h: nat, r: Job)
  {
    h in items && Carries(cfg, items[h], r)
  }

  /** Each key's record is carried by an item of its own, in the order of the keys, and older items stay. */
  ghost predicate HandedOver(q: Queue, r: Queue, ks: seq<string>)
    requires forall i | 0 <= i < |ks| :: ks[i] in q.delayed
  {
    && r.cfg == q.cfg && r.next == q.next + |ks|
    && (forall i | 0 <= i < |ks| :: Holds(q.cfg, r.inflight, q.next + i, q.delayed[ks[i]]))
    && (forall h | h in q.inflight :: h in r.inflight && r.inflight[h] == q.inflight[h])
    && (forall h | h in r.inflight :: h in q.inflight || q.next <= h < r.next)
  }

  lemma HandedOverMore(q: Queue, r: Queue, ks: seq<string>, k: string)
    requires (forall i | 0 <= i < |ks| :: ks[i] in q.delayed) && k in q.delayed && HandedOver(q, r, ks)
    requires AllBelow(q.inflight, q.next) && k in r.delayed && r.delayed[k] == q.delayed[k]
    ensures HandedOver(q, DoRelease(r, k), ks + [k])
  {
    var r' := DoRelease(r, k);
    assert Possible(r, Release(k)) && r' == Next(r, Release(k));
    DeliveryCarries(r, Release(k));
    forall i | 0 <= i < |ks + [k]|
      ensures Holds(q.cfg, r'.inflight, q.next + i, q.delayed[(ks + [k])[i]])
    {
      if i < |ks| {
        assert (ks + [k])[i] == ks[i] && Holds(q.cfg, r.inflight, q.next + i, q.delayed[ks[i]]);
      }
    }
    forall h | h in q.inflight ensures h in r'.inflight && r'.inflight[h] == q.inflight[h] {
      assert h in r.inflight && h != r.next;
    }
    forall h | h in r'.inflight ensures h in q.inflight || q.next <= h < r'.next {
      assert h in r'.inflight.Keys;
    }
  }

  lemma {:induction false} ReleasesHandOver(q: Queue, ks: seq<string>)
    requires (forall i | 0 <= i < |ks| :: ks[i] in q.delayed) && AllBelow(q.inflight, q.next)
    requires forall i, j | 0 <= i < j < |ks| :: ks[i] != ks[j]
    ensures HandedOver(q, Releases(q, ks), ks)
    ensures Releases(q, ks).delayed == q.delayed - (set x | x in ks)
    decreases |ks|
  {
    if ks != [] {
      var front, k := ks[..|ks| - 1], ks[|ks| - 1];
      assert ks == front + [k];
      ReleasesHandOver(q, front);
      ReleasesMore(q, front, k);
      HandedOverMore(q, Releases(q, front), front, k);
    }
  }

  /** A scan in order hands over every record it releases. */
  lemma ScanHandsOver(q: Queue, ks: seq<string>)
    requires (forall i | 0 <= i < |ks| :: ks[i] in q.delayed) && AllBelow(q.inflight, q.next) && Ascending(ks)
    ensures HandedOver(q, Releases(q, ks), ks)
  {
    forall i, j | 0 <= i < j < |ks| ensures ks[i] != ks[j] {
      LessIrreflexive(ks[i]);
    }
    ReleasesHandOver(q, ks);
  }
}
