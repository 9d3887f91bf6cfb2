/**
 Who has a job in hand.  A pipeline that is destroyed and declared again leaves the items of the
 closed database in the priority queue, where pollers still find and execute them; recovery hands
 the same jobs out anew.  This module says exactly when a job is in two hands.
 */
module BoltHands {
  import opened BoltQueue
  import opened JobTable
  import opened BoltSafety
  import opened BoltRuns

  function InflightOf(q: Queue, id: string): set<nat>
  {
    ItemsOf(q.inflight, id)
  }

  function ItemsOf(items: map<nat, Job>, id: string): set<nat>
  {
    set h | h in items && items[h].id == id
  }

  function StaleOf(q: Queue, id: string): set<nat>
  {
    ItemsOf(q.stale, id)
  }

  /** The items of a job that a poller has or will get, of this session and of earlier ones. */
  function HandsOf(q: Queue, id: string): set<nat>
  {
    InflightOf(q, id) + StaleOf(q, id)
  }

  predicate OneHand(q: Queue, id: string)
  {
    forall h, g | h in HandsOf(q, id) && g in HandsOf(q, id) :: h == g
  }

  /** Items have one address each. */
  predicate Apart(q: Queue)
  {
    q.inflight.Keys !! q.stale.Keys
  }

  lemma HandOutApart(q: Queue, j: Job)
    requires Fresh(q) && Apart(q)
    ensures Apart(HandOut(q, j))
  {
  }

  lemma RemovedItems(q: Queue, s: Step)
    requires Possible(q, s) && (s.Ack? || s.Nack? || s.Requeue?)
    ensures Next(q, s).stale == q.stale && Next(q, s).inflight == q.inflight - {s.h}
  {
    if s.Ack? {
      AckedItems(q, s.h);
    } else if s.Nack? {
      NackedItems(q, s.h);
    } else {
      RequeuedItems(q, s.h, s.headers, s.delay, s.key);
    }
  }

  lemma AckedItems(q: Queue, h: nat)
    requires h in q.inflight
    ensures DoAck(q, h).inflight == q.inflight - {h} && DoAck(q, h).stale == q.stale
  {
  }

  lemma NackedItems(q: Queue, h: nat)
    requires h in q.inflight
    ensures DoNack(q, h).inflight == q.inflight - {h} && DoNack(q, h).stale == q.stale
  {
  }

  lemma RequeuedItems(q: Queue, h: nat, headers: Headers, delay: int, key: string)
    requires h in q.inflight
    ensures var r := DoRequeue(q, h, headers, delay, key); r.inflight == q.inflight - {h} && r.stale == q.stale
  {
  }

  lemma RemovalApart(q: Queue, s: Step)
    requires Possible(q, s) && (s.Ack? || s.Nack? || s.Requeue?) && Apart(q)
    ensures Apart(Next(q, s))
  {
    RemovedItems(q, s);
  }

  lemma ApartStep(q: Queue, s: Step)
    requires Fresh(q) && Possible(q, s) && Apart(q)
    ensures Apart(Next(q, s))
  {
    match s {
      case Ack(_) => RemovalApart(q, s);
      case Nack(_) => RemovalApart(q, s);
      case Requeue(_, _, _, _) => RemovalApart(q, s);
      case Take(k) => HandOutApart(q.(push := q.push - {k}, checked := q.checked - 1), q.push[k]);
      case Release(k) => HandOutApart(q.(delayed := q.delayed - {k}), q.delayed[k]);
      case _ =>
    }
  }

  lemma {:induction false} ItemsAreApart(ws: seq<World>, steps: seq<Step>, i: nat)
    requires Run(ws, steps) && i <= |steps|
    ensures Apart(ws[i].q)
    decreases i
  {
    if i > 0 {
      ItemsAreApart(ws, steps, i - 1);
      RunStep(ws, steps, i - 1);
      ApartStep(ws[i - 1].q, steps[i - 1]);
    }
  }

  // One step

  lemma HandOutHands(q: Queue, j: Job, id: string)
    requires Fresh(q)
    ensures HandsOf(HandOut(q, j), id) == HandsOf(q, id) + if j.id == id then {q.next} else {}
  {
    var q' := HandOut(q, j);
    assert q'.inflight[q.next].id == j.id && q.next !in q.inflight && q.next !in q.stale;
  }

  lemma DeliveryHands(q: Queue, t: Table, s: Step, id: string)
    requires Sound(q, t) && Possible(q, s) && (s.Take? || s.Release?)
    ensures HandsOf(Next(q, s), id) == HandsOf(q, id) + if Delivers(q, s, id) then {q.next} else {}
  {
    if s.Take? {
      var q' := q.(push := q.push - {s.key}, checked := q.checked - 1);
      assert HandsOf(q', id) == HandsOf(q, id);
      HandOutHands(q', q.push[s.key], id);
    } else {
      var q' := q.(delayed := q.delayed - {s.key});
      assert HandsOf(q', id) == HandsOf(q, id);
      HandOutHands(q', q.delayed[s.key], id);
    }
  }

  lemma RemovalHands(q: Queue, s: Step, id: string)
    requires Possible(q, s) && (s.Ack? || s.Nack? || s.Requeue?)
    ensures HandsOf(Next(q, s), id) <= HandsOf(q, id)
  {
    RemovedItems(q, s);
  }

  lemma OtherHands(q: Queue, s: Step, id: string)
    requires Possible(q, s) && !s.Take? && !s.Release?
    ensures HandsOf(Next(q, s), id) <= HandsOf(q, id)
  {
    if s.Ack? || s.Nack? || s.Requeue? {
      RemovalHands(q, s, id);
    } else if s.Push? || s.Check? || s.Yield? {
      ItemsUntouched(q, s);
    } else {
      MemoryHands(q, s, id);
    }
  }

  lemma ItemsUntouched(q: Queue, s: Step)
    requires Possible(q, s) && (s.Push? || s.Check? || s.Yield?)
    ensures Next(q, s).stale == q.stale && Next(q, s).inflight == q.inflight
  {
  }

  /** Steps in memory only, and reopening: items are rewritten, dropped or set aside. */
  lemma MemoryHands(q: Queue, s: Step, id: string)
    requires Possible(q, s) && (s.RequeueFails? || s.Drop? || s.Reopen?)
    ensures HandsOf(Next(q, s), id) <= HandsOf(q, id)
  {
  }

  /** Only a delivery puts a job into another hand. */
  lemma HandsMove(q: Queue, t: Table, s: Step, id: string)
    requires Sound(q, t) && Possible(q, s)
    ensures Delivers(q, s, id) ==> HandsOf(Next(q, s), id) == HandsOf(q, id) + {q.next}
    ensures !Delivers(q, s, id) ==> HandsOf(Next(q, s), id) <= HandsOf(q, id)
  {
    if s.Take? || s.Release? {
      DeliveryHands(q, t, s, id);
    } else {
      OtherHands(q, s, id);
    }
  }

  /** A job that can be delivered is not in flight in this session. */
  lemma DeliverableIsNotInFlight(q: Queue, t: Table, s: Step, id: string)
    requires Sound(q, t) && Possible(q, s) && Delivers(q, s, id)
    ensures InflightOf(q, id) == {}
  {
  }

  lemma OneHandStep(q: Queue, t: Table, s: Step, id: string)
    requires Sound(q, t) && Possible(q, s) && OneHand(q, id) && !(Delivers(q, s, id) && StaleOf(q, id) != {})
    ensures OneHand(Next(q, s), id)
  {
    HandsMove(q, t, s, id);
    if Delivers(q, s, id) {
      DeliverableIsNotInFlight(q, t, s, id);
      assert HandsOf(Next(q, s), id) == {q.next};
    }
  }

  lemma TwoHandsStep(q: Queue, t: Table, s: Step, id: string)
    requires Sound(q, t) && Possible(q, s) && Delivers(q, s, id) && StaleOf(q, id) != {}
    ensures !OneHand(Next(q, s), id)
  {
    HandsMove(q, t, s, id);
    var h :| h in StaleOf(q, id);
    assert h in HandsOf(Next(q, s), id) && q.next in HandsOf(Next(q, s), id) && h != q.next;
  }

  // Whole runs

  /** The item was in flight when the pipeline was declared again, and has been kept since. */
  ghost predicate HeldOver(ws: seq<World>, steps: seq<Step>, r: nat, m: nat, h: nat, id: string)
    requires r < m < |ws| && r < |steps|
  {
    && steps[r] == Reopen(false) && h in InflightOf(ws[r].q, id)
    && forall k | r < k <= m :: h in ws[k].q.stale
  }

  lemma StaleStep(q: Queue, s: Step, h: nat)
    requires Possible(q, s) && Apart(q) && h in Next(q, s).stale
    ensures h in q.stale ==> Next(q, s).stale[h].id == q.stale[h].id
    ensures h !in q.stale ==> s == Reopen(false) && h in q.inflight && Next(q, s).stale[h].id == q.inflight[h].id
  {
    if !s.Reopen? && !s.Drop? && !s.RequeueFails? {
      StaleStays(q, s);
    }
  }

  lemma StaleStays(q: Queue, s: Step)
    requires Possible(q, s) && !s.Reopen? && !s.Drop? && !s.RequeueFails?
    ensures Next(q, s).stale == q.stale
  {
  }

  lemma StaleInRun(ws: seq<World>, steps: seq<Step>, m: nat, h: nat, id: string)
    requires Run(ws, steps) && m < |steps| && h in ws[m + 1].q.stale
    ensures h in ws[m].q.stale ==> (h in StaleOf(ws[m + 1].q, id) <==> h in StaleOf(ws[m].q, id))
    ensures h !in ws[m].q.stale ==>
            steps[m] == Reopen(false) && (h in StaleOf(ws[m + 1].q, id) <==> h in InflightOf(ws[m].q, id))
  {
    RunStep(ws, steps, m);
    ItemsAreApart(ws, steps, m);
    StaleStep(ws[m].q, steps[m], h);
  }

  lemma {:induction false} StaleWasHeldOver(ws: seq<World>, steps: seq<Step>, m: nat, h: nat, id: string)
      returns (r: nat)
    requires Run(ws, steps) && m <= |steps| && h in StaleOf(ws[m].q, id)
    ensures r < m && HeldOver(ws, steps, r, m, h, id)
    decreases m
  {
    assert m > 0;
    StaleInRun(ws, steps, m - 1, h, id);
    if h in ws[m - 1].q.stale {
      r := StaleWasHeldOver(ws, steps, m - 1, h, id);
    } else {
      r := m - 1;
    }
  }

  lemma {:induction false} HeldOverIsStale(ws: seq<World>, steps: seq<Step>, r: nat, m: nat, h: nat, id: string)
    requires Run(ws, steps) && r < m <= |steps| && HeldOver(ws, steps, r, m, h, id)
    ensures h in StaleOf(ws[m].q, id)
    decreases m
  {
    StaleInRun(ws, steps, m - 1, h, id);
    if m > r + 1 {
      HeldOverIsStale(ws, steps, r, m - 1, h, id);
    } else {
      ItemsAreApart(ws, steps, r);
    }
  }

  /** At step `m` the job is handed out although an item of an earlier session is still about. */
  ghost predicate HandedOutTwice(ws: seq<World>, steps: seq<Step>, m: nat, id: string)
    requires m < |ws| && m < |steps|
  {
    Delivers(ws[m].q, steps[m], id) && exists r: nat, h: nat | r < m :: HeldOver(ws, steps, r, m, h, id)
  }

  lemma HandedOutTwiceExactly(ws: seq<World>, steps: seq<Step>, m: nat, id: string)
    requires Run(ws, steps) && m < |steps|
    ensures HandedOutTwice(ws, steps, m, id) <==> Delivers(ws[m].q, steps[m], id) && StaleOf(ws[m].q, id) != {}
  {
    if StaleOf(ws[m].q, id) != {} {
      var h :| h in StaleOf(ws[m].q, id);
      var r := StaleWasHeldOver(ws, steps, m, h, id);
    } else if HandedOutTwice(ws, steps, m, id) {
      var r: nat, h: nat :| r < m && HeldOver(ws, steps, r, m, h, id);
      HeldOverIsStale(ws, steps, r, m, h, id);
    }
  }

  lemma HandsInRun(ws: seq<World>, steps: seq<Step>, m: nat, id: string)
    requires Run(ws, steps) && m < |steps|
    ensures HandedOutTwice(ws, steps, m, id) ==> !OneHand(ws[m + 1].q, id)
    ensures !HandedOutTwice(ws, steps, m, id) && OneHand(ws[m].q, id) ==> OneHand(ws[m + 1].q, id)
  {
    RunStep(ws, steps, m);
    HandedOutTwiceExactly(ws, steps, m, id);
    if HandedOutTwice(ws, steps, m, id) {
      TwoHandsStep(ws[m].q, ws[m].t, steps[m], id);
    } else if OneHand(ws[m].q, id) {
      OneHandStep(ws[m].q, ws[m].t, steps[m], id);
    }
  }

  lemma {:induction false} OneHandUnlessTwice(ws: seq<World>, steps: seq<Step>, n: nat, id: string)
    requires Run(ws, steps) && n <= |steps|
    requires forall m | 0 <= m < n :: !HandedOutTwice(ws, steps, m, id)
    ensures OneHand(ws[n].q, id)
    decreases n
  {
    if n > 0 {
      OneHandUnlessTwice(ws, steps, n - 1, id);
      HandsInRun(ws, steps, n - 1, id);
    }
  }

  /**
   Single delivery over all hands: up to step `n` a job is in one hand at most, exactly when no
   step before handed it out while an item of it, in flight when the pipeline was declared again,
   was still about.
   */
  lemma OneHandExactly(ws: seq<World>, steps: seq<Step>, n: nat, id: string)
    requires Run(ws, steps) && n <= |steps|
    ensures (forall i | 0 <= i <= n :: OneHand(ws[i].q, id)) <==>
            (forall m | 0 <= m < n :: !HandedOutTwice(ws, steps, m, id))
  {
    if forall m | 0 <= m < n :: !HandedOutTwice(ws, steps, m, id) {
      forall i | 0 <= i <= n ensures OneHand(ws[i].q, id) {
        OneHandUnlessTwice(ws, steps, i, id);
      }
    } else {
      var m :| 0 <= m < n && HandedOutTwice(ws, steps, m, id);
      HandsInRun(ws, steps, m, id);
      assert !OneHand(ws[m + 1].q, id);
    }
  }

  lemma AckHands(q: Queue, h: nat, id: string)
    requires Distinct(q.inflight) && Apart(q) && h in InflightOf(q, id)
    ensures HandsOf(DoAck(q, h), id) == StaleOf(q, id)
    ensures OneHand(q, id) <==> StaleOf(q, id) == {}
  {
    OneItem(q.inflight, h, id);
    LastItem(q.inflight, h, id);
    AckedItems(q, h);
    OneHandExactlyWithoutStale(q, h, id);
  }

  lemma OneItem(items: map<nat, Job>, h: nat, id: string)
    requires Distinct(items) && h in ItemsOf(items, id)
    ensures ItemsOf(items, id) == {h}
  {
  }

  lemma LastItem(items: map<nat, Job>, h: nat, id: string)
    requires ItemsOf(items, id) == {h}
    ensures ItemsOf(items - {h}, id) == {}
  {
    assert forall g | g in ItemsOf(items - {h}, id) :: g in ItemsOf(items, id);
  }

  lemma OneHandExactlyWithoutStale(q: Queue, h: nat, id: string)
    requires Apart(q) && InflightOf(q, id) == {h}
    ensures OneHand(q, id) <==> StaleOf(q, id) == {}
  {
    assert h in InflightOf(q, id) && h in q.inflight;
    if StaleOf(q, id) != {} {
      var g :| g in StaleOf(q, id);
      assert g in HandsOf(q, id) && h in HandsOf(q, id) && g in q.stale;
    }
  }

  /** An acknowledged job is in no hand, exactly when it was in no other hand before. */
  lemma AckedIsGoneExactly(ws: seq<World>, steps: seq<Step>, i: nat, id: string)
    requires Run(ws, steps) && i < |steps| && Acks(ws[i].q, steps[i], id)
    ensures HandsOf(ws[i + 1].q, id) == {} <==> OneHand(ws[i].q, id)
  {
    RunStep(ws, steps, i);
    ItemsAreApart(ws, steps, i);
    AckHands(ws[i].q, steps[i].h, id);
  }

  /** And then it stays out of all hands until it is pushed again. */
  lemma {:induction false} AckedStaysOutOfHands(ws: seq<World>, steps: seq<Step>, i: nat, j: nat, id: string)
    requires Run(ws, steps) && i < j <= |steps| && Acks(ws[i].q, steps[i], id) && OneHand(ws[i].q, id)
    requires forall m | i < m < j :: steps[m].Push? ==> steps[m].job.id != id
    ensures HandsOf(ws[j].q, id) == {}
    decreases j
  {
    if j == i + 1 {
      AckedIsGoneExactly(ws, steps, i, id);
    } else {
      AckedStaysOutOfHands(ws, steps, i, j - 1, id);
      NoResurrection(ws, steps, i, j - 1, id);
      RunStep(ws, steps, j - 1);
      HandsMove(ws[j - 1].q, ws[j - 1].t, steps[j - 1], id);
    }
  }

  /** Where every reopening is a restart of the process, a job is never in two hands. */
  lemma RestartsKeepOneHand(ws: seq<World>, steps: seq<Step>, n: nat, id: string)
    requires Run(ws, steps) && n <= |steps| && forall m | 0 <= m < n :: steps[m] != Reopen(false)
    ensures forall i | 0 <= i <= n :: OneHand(ws[i].q, id)
  {
    OneHandExactly(ws, steps, n, id);
  }

  // A run that puts a job into two hands

  lemma ReopenedOnce(q: Queue)
    requires q == Queue(q.cfg, map[], ONE, map[], {}, map[0 := Plain("a")], map[], 1, 0, 1, 0)
    ensures DoReopen(q, false) == Queue(q.cfg, ONE, ONE, map[], {}, map[], map[0 := Plain("a")], 1, 0, 0, 0)
  {
    assert q.push + q.processing == ONE && q.stale + q.inflight == map[0 := Plain("a")];
  }

  lemma Redeclared(cfg: Config) returns (ws: seq<World>, steps: seq<Step>)
    requires cfg.listeners > 0 && cfg.prefetch > 0
    ensures Run(ws, steps) && |steps| == 4 && ws[4].t == ONE_OWED
    ensures ws[4].q == Queue(cfg, ONE, ONE, map[], {}, map[], map[0 := Plain("a")], 1, 0, 0, 0)
  {
    ws, steps := PushAndTake(cfg);
    var w := Advance(ws[3], Reopen(false));
    ReopenedOnce(ws[3].q);
    Extend(ws, steps, Reopen(false));
    ws, steps := ws + [w], steps + [Reopen(false)];
  }

  lemma TakenAgain(cfg: Config) returns (ws: seq<World>, steps: seq<Step>)
    requires cfg.listeners > 0 && cfg.prefetch > 0
    ensures Run(ws, steps) && |steps| == 5 && ws[5].t == ONE_OWED
    ensures ws[5].q == Queue(cfg, ONE, ONE, map[], {}, map[], map[0 := Plain("a")], 1, 1, 0, 0)
  {
    ws, steps := Redeclared(cfg);
    Extend(ws, steps, Check);
    ws, steps := ws + [Advance(ws[4], Check)], steps + [Check];
  }

  lemma TakenTwice(cfg: Config) returns (ws: seq<World>, steps: seq<Step>)
    requires cfg.listeners > 0 && cfg.prefetch > 0
    ensures Run(ws, steps) && |steps| == 6 && ws[6].t == ONE_OWED
    ensures ws[6].q == Queue(cfg, map[], ONE, map[], {}, map[1 := Plain("a")], map[0 := Plain("a")], 2, 0, 0, 0)
  {
    ws, steps := TakenAgain(cfg);
    OneIsFirst();
    var w := Advance(ws[5], Take("a"));
    Extend(ws, steps, Take("a"));
    ws, steps := ws + [w], steps + [Take("a")];
  }

  /**
   A job is taken, the pipeline is declared again, and the job is taken and acknowledged: it was in
   two hands, and after the acknowledgement it is owed nowhere and yet still to be executed.
   */
  lemma TwoHandsHappen(cfg: Config) returns (ws: seq<World>, steps: seq<Step>)
    requires cfg.listeners > 0 && cfg.prefetch > 0
    ensures Run(ws, steps) && |steps| == 7 && Acks(ws[6].q, steps[6], "a")
    ensures HandsOf(ws[6].q, "a") == {0, 1} && !OneHand(ws[6].q, "a")
    ensures "a" !in ws[7].t && HandsOf(ws[7].q, "a") == {0}
  {
    ws, steps := TakenTwice(cfg);
    var w := Advance(ws[6], Ack(1));
    Extend(ws, steps, Ack(1));
    ws, steps := ws + [w], steps + [Ack(1)];
    assert 0 in HandsOf(ws[6].q, "a") && 1 in HandsOf(ws[6].q, "a");
  }
}
