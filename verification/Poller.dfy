/**
 The job poller: extract a job, run it on a worker, settle it, count it, return the payload.

 What the worker and the driver do is input: each extracted job comes with the outcome of building
 its context, of executing it, and of the settlement calls that will be made for it.
 */
module Poller {
  import opened Text
  import opened Protocol

  /** What the worker pool returns: an error, a reply without a body, or a reply. */
  datatype Exec = Failed | Empty | Replied(reply: EnvelopeText)

  /** An extracted job; `first` says whether the first settlement call succeeds. */
  datatype Extracted = Extracted(
    acknowledger: bool,
    contextOk: bool,
    exec: Exec,
    first: bool,
    choice: nat)        // which pooled structs the response handler is given

  /** How one round ends: the calls made, and which of the two counters moved. */
  datatype Tick = NoTick | OkTick | ErrTick
  datatype Outcome = Panics | Round(calls: seq<Call>, tick: Tick)

  /** The round, once the response handler has planned its call. */
  function Settle(j: Extracted, plan: Plan): Outcome
  {
    if !j.contextOk then
      if j.acknowledger then Round([Nack], ErrTick) else Panics
    else if j.exec.Failed? then Round(if j.acknowledger then [Nack] else [], ErrTick)
    else if !j.acknowledger then Round([], NoTick)
    else if j.exec.Empty? then Round([Ack], if j.first then OkTick else ErrTick)
    else
      var made := if plan.call.Some? then [plan.call.value] else [];
      if HandleFails(plan, j.first) then Round(made + [Ack], ErrTick) else Round(made, OkTick)
  }

  /** One call, or a second one that is `Ack` and follows a first one that failed. */
  predicate Settled(j: Extracted, calls: seq<Call>)
  {
    1 <= |calls| <= 2 && (|calls| == 2 ==> calls[1] == Ack && !j.first)
  }

  /**
   Settlement: an acknowledgeable job gets one call or two; a second call is always `Ack`, and is
   made only after the first one failed; exactly one of the counters moves.
   */
  lemma SettledOnceOrTwice(j: Extracted, plan: Plan)
    requires j.acknowledger
    ensures Settle(j, plan).Round? && Settle(j, plan).tick != NoTick
    ensures Settled(j, Settle(j, plan).calls)
  {
  }

  /** The calls begin with `c`, and an acknowledgement follows where that one fails and its failure is passed on. */
  predicate Makes(calls: seq<Call>, c: Call, first: bool)
  {
    calls == if first then [c] else [c, Ack]
  }

  /**
   What must happen to an acknowledgeable job.  Without a context, and when the worker fails, it is
   rejected; without a reply body it is acknowledged; a reply that cannot be decoded, and an error that
   asks for no requeue, end in one acknowledgement; and an error that asks for it, a response (type 2) and a
   success (any type but 1 and 2) lead to their own call, which an acknowledgement follows if it fails.
   */
  predicate Due(j: Extracted, calls: seq<Call>)
  {
    if !j.contextOk || j.exec.Failed? then calls == [Nack]
    else if j.exec.Empty? || !j.exec.reply.ok then calls == [Ack]
    else
      var x := j.exec.reply;
      if x.kind == Some(1) then
        if x.data.Some? && x.data.value.asError.ok && x.data.value.asError.requeue == Some(true) then
          var e := x.data.value.asError;
          Makes(calls, Requeue(e.headers.GetOr(map[]), e.delay.GetOr(0)), j.first)
        else calls == [Ack]
      else if x.kind == Some(2) then
        if x.data.Some? && x.data.value.asQueue.ok then
          var q := x.data.value.asQueue;
          && calls != [] && calls[0].Respond? && calls[0].queue == q.queue.GetOr("")
          && (q.payload.Some? ==> calls[0].payload == q.payload.value)
          && Makes(calls, calls[0], j.first)
        else calls == [Ack]
      else Makes(calls, Ack, j.first)
  }

  /**
   When an acknowledgeable job counts as done: it was executed, its reply could be decoded if there was one,
   and the call succeeded, which for an error that asks for no requeue is not looked at.
   */
  predicate Done(j: Extracted)
  {
    j.contextOk && (
      match j.exec
      case Failed => false
      case Empty => j.first
      case Replied(x) =>
        x.ok &&
        if x.kind == Some(1) then
          x.data.Some? && x.data.value.asError.ok && (x.data.value.asError.requeue != Some(true) || j.first)
        else if x.kind == Some(2) then x.data.Some? && x.data.value.asQueue.ok && j.first
        else j.first)
  }

  /** A round makes the calls that are due and moves the counter that is. */
  lemma SettledAsDue(j: Extracted, plan: Plan)
    requires j.acknowledger && (Handles(j) ==> Obeys(j.exec.reply, plan))
    ensures Settle(j, plan).Round? && Due(j, Settle(j, plan).calls)
    ensures Settle(j, plan).tick == if Done(j) then OkTick else ErrTick
  {
  }

  predicate OnlyResponds(calls: seq<Call>)
  {
    forall i | 0 <= i < |calls| :: calls[i].Respond?
  }

  /** A round that neither acknowledges, rejects nor requeues: exactly a response that was sent. */
  lemma UnsettledExactly(j: Extracted, p: Envelope, e: ErrorResp, q: QueueResp)
    requires j.acknowledger && j.exec.Replied?
    ensures var plan := PlanWith(j.exec.reply, p, e, q);
            OnlyResponds(Settle(j, plan).calls) <==>
            j.contextOk && plan.call.Some? && plan.call.value.Respond? && j.first
  {
    var plan := PlanWith(j.exec.reply, p, e, q);
    var calls := Settle(j, plan).calls;
    SettledOnceOrTwice(j, plan);
    if OnlyResponds(calls) {
      assert calls[0].Respond?;
    }
  }

  /** The round reaches the response handler. */
  predicate Handles(j: Extracted)
  {
    j.contextOk && j.acknowledger && j.exec.Replied?
  }

  /** The plan for a response that names no payload and is given one that a pooled struct still held. */
  function Leftover(x: EnvelopeText, payload: string): Plan
    requires NamesNoPayload(x)
  {
    Plan(Some(Respond(payload, x.data.value.asQueue.queue.GetOr(""))), true)
  }

  /** The plan is what the reply asks for, with a payload named earlier where it names none itself. */
  ghost predicate Planned(j: Extracted, plan: Plan, named: set<string>)
  {
    if !Handles(j) then plan == Plan(None, true)
    else if !NamesNoPayload(j.exec.reply) then plan == Asked(j.exec.reply)
    else exists payload | payload in named + {""} :: plan == Leftover(j.exec.reply, payload)
  }

  lemma PlannedObeys(j: Extracted, plan: Plan, named: set<string>)
    requires Handles(j) && Planned(j, plan, named)
    ensures Obeys(j.exec.reply, plan)
  {
    AskedObeys(j.exec.reply);
  }

  /** The payload that is filled in is the one the pooled struct held. */
  predicate FromPool(j: Extracted, plan: Plan, pool: seq<QueueResp>)
  {
    Handles(j) && NamesNoPayload(j.exec.reply) && j.choice < |pool| ==>
    plan == Leftover(j.exec.reply, pool[j.choice].payload)
  }

  class Plugin {
    const handler: RespHandler
    var jobsOk: nat
    var jobsErr: nat
    var taken: nat        // payloads taken from the pool
    var returned: nat     // payloads put back
    var log: seq<seq<Call>>

    ghost predicate Valid()
      reads this, handler
    {
      handler.Valid()
    }

    constructor ()
      ensures Valid() && fresh(handler) && jobsOk == 0 && jobsErr == 0 && taken == 0 && returned == 0 && log == []
    {
      handler := new RespHandler();
      jobsOk, jobsErr, taken, returned, log := 0, 0, 0, 0, [];
    }

    /** The counters and the log after a round that ends as `Settle` says. */
    ghost predicate OutcomeIs(j: Extracted, plan: Plan, okBefore: nat, errBefore: nat, logBefore: seq<seq<Call>>)
      reads this
    {
      var r := Settle(j, plan);
      && r.Round? && log == logBefore + [r.calls]
      && jobsOk == okBefore + (if r.tick == OkTick then 1 else 0)
      && jobsErr == errBefore + (if r.tick == ErrTick then 1 else 0)
    }

    /** The reply is handed to the response handler, whose failure is made good by an acknowledgement. */
    method Respond(j: Extracted) returns (plan: Plan)
      requires Valid() && Handles(j)
      modifies this, handler
      ensures Valid() && taken == old(taken) && returned == old(returned) + 1
      ensures old(handler.named) <= handler.named && Planned(j, plan, old(handler.named))
      ensures FromPool(j, plan, old(handler.qPool)) && OutcomeIs(j, plan, old(jobsOk), old(jobsErr), old(log))
    {
      plan := handler.Handle(j.exec.reply, j.choice);
      var made := if plan.call.Some? then [plan.call.value] else [];
      if HandleFails(plan, j.first) {
        jobsErr := jobsErr + 1;
        returned := returned + 1;
        log := log + [made + [Ack]];
      } else {
        jobsOk := jobsOk + 1;
        log := log + [made];
        returned := returned + 1;
      }
      if NamesNoPayload(j.exec.reply) {
        assert plan == Leftover(j.exec.reply, plan.call.value.payload);
      }
    }

    /** One round of the poller; false where it panics.  The plan is the one the reply asks for. */
    method Process(j: Extracted) returns (ok: bool, ghost plan: Plan)
      requires Valid()
      modifies this, handler
      ensures Valid() && (ok <==> j.acknowledger || j.contextOk)
      ensures taken - returned == old(taken - returned) && taken == old(taken) + if j.contextOk then 1 else 0
      ensures old(handler.named) <= handler.named && Planned(j, plan, old(handler.named))
      ensures FromPool(j, plan, old(handler.qPool))
      ensures ok ==> OutcomeIs(j, plan, old(jobsOk), old(jobsErr), old(log))
      ensures !j.acknowledger ==> log == old(log) + (if ok then [[]] else []) && jobsOk == old(jobsOk)
      ensures !j.acknowledger ==> jobsErr == old(jobsErr) + if !ok || j.exec.Failed? then 1 else 0
    {
      plan := Plan(None, true);
      if !j.contextOk {
        jobsErr := jobsErr + 1;
        if !j.acknowledger {
          return false, plan;
        }
        log := log + [[Nack]];
        return true, plan;
      }
      taken := taken + 1;
      if j.exec.Failed? {
        jobsErr := jobsErr + 1;
        log := log + [if j.acknowledger then [Nack] else []];
        returned := returned + 1;
        return true, plan;
      }
      if !j.acknowledger {
        returned := returned + 1;
        log := log + [[]];
        return true, plan;
      }
      if j.exec.Empty? {
        returned := returned + 1;
        log := log + [[Ack]];
        if j.first {
          jobsOk := jobsOk + 1;
        } else {
          jobsErr := jobsErr + 1;
        }
        return true, plan;
      }
      plan := Respond(j);
      return true, plan;
    }

    /**
     A poller run over acknowledgeable jobs: the calls made for each are those that are due, under the
     plan its reply asks for, those done and those not are counted, and every payload is returned.
     */
    method Poll(jobs: seq<Extracted>) returns (ghost plans: seq<Plan>)
      requires Valid() && forall i | 0 <= i < |jobs| :: jobs[i].acknowledger
      modifies this, handler
      ensures Valid() && taken - returned == old(taken - returned)
      ensures |plans| == |jobs| && log == old(log) + AllCalls(jobs, plans)
      ensures AllPlanned(jobs, plans, handler.named)
      ensures forall i | 0 <= i < |jobs| :: Due(jobs[i], log[old(|log|) + i])
      ensures jobsOk == old(jobsOk) + |AllDone(jobs)|
      ensures jobsErr == old(jobsErr) + |jobs| - |AllDone(jobs)|
    {
      plans := [];
      ghost var before := Book(jobsOk, jobsErr, log);
      for n := 0 to |jobs|
        invariant Valid() && taken - returned == old(taken - returned)
        invariant |plans| == n && Kept(before, Book(jobsOk, jobsErr, log), jobs[..n], plans)
        invariant AllPlanned(jobs[..n], plans, handler.named)
      {
        ghost var plan, book, named := Plan(None, true), Book(jobsOk, jobsErr, log), handler.named;
        var ok;
        ok, plan := Process(jobs[n]);
        KeptMore(before, book, jobs, plans, plan);
        PlannedMore(jobs, plans, plan, named, handler.named);
        plans := plans + [plan];
      }
      assert jobs[..|jobs|] == jobs;
      EveryJobAsDue(jobs, plans, handler.named);
      assert forall i | 0 <= i < |jobs| :: log[old(|log|) + i] == AllCalls(jobs, plans)[i];
    }
  }

  // Whole runs

  /** The calls of each round. */
  function AllCalls(jobs: seq<Extracted>, plans: seq<Plan>): (log: seq<seq<Call>>)
    requires |plans| == |jobs| && forall i | 0 <= i < |jobs| :: jobs[i].acknowledger
    ensures |log| == |jobs|
  {
    if jobs == [] then []
    else
      var n := |jobs| - 1;
      AllCalls(jobs[..n], plans[..n]) + [Settle(jobs[n], plans[n]).calls]
  }

  /** How often a counter moves. */
  function Ticks(jobs: seq<Extracted>, plans: seq<Plan>, tick: Tick): nat
    requires |plans| == |jobs| && forall i | 0 <= i < |jobs| :: jobs[i].acknowledger
  {
    if jobs == [] then 0
    else
      var n := |jobs| - 1;
      Ticks(jobs[..n], plans[..n], tick) + if Settle(jobs[n], plans[n]).tick == tick then 1 else 0
  }

  /** The counters and the log. */
  datatype Book = Book(ok: nat, err: nat, log: seq<seq<Call>>)

  /** What the rounds have added to the books. */
  predicate Kept(before: Book, after: Book, jobs: seq<Extracted>, plans: seq<Plan>)
    requires |plans| == |jobs| && forall i | 0 <= i < |jobs| :: jobs[i].acknowledger
  {
    && after.log == before.log + AllCalls(jobs, plans)
    && after.ok == before.ok + Ticks(jobs, plans, OkTick) && after.err == before.err + Ticks(jobs, plans, ErrTick)
  }

  ghost predicate AllPlanned(jobs: seq<Extracted>, plans: seq<Plan>, named: set<string>)
    requires |plans| == |jobs|
  {
    forall i | 0 <= i < |jobs| :: Planned(jobs[i], plans[i], named)
  }

  /** The books after one round more. */
  function Entered(book: Book, r: Outcome): Book
    requires r.Round?
  {
    Book(book.ok + (if r.tick == OkTick then 1 else 0), book.err + (if r.tick == ErrTick then 1 else 0),
         book.log + [r.calls])
  }

  lemma KeptMore(before: Book, book: Book, jobs: seq<Extracted>, plans: seq<Plan>, plan: Plan)
    requires |plans| < |jobs| && forall i | 0 <= i < |jobs| :: jobs[i].acknowledger
    requires Kept(before, book, jobs[..|plans|], plans)
    ensures Kept(before, Entered(book, Settle(jobs[|plans|], plan)), jobs[..|plans| + 1], plans + [plan])
  {
    RunMore(jobs, plans, plan);
  }

  lemma PlannedMore(jobs: seq<Extracted>, plans: seq<Plan>, plan: Plan, named: set<string>, later: set<string>)
    requires |plans| < |jobs| && AllPlanned(jobs[..|plans|], plans, named) && named <= later
    requires Planned(jobs[|plans|], plan, named)
    ensures AllPlanned(jobs[..|plans| + 1], plans + [plan], later)
  {
    forall i | 0 <= i <= |plans| ensures Planned(jobs[i], (plans + [plan])[i], later) {
      if i < |plans| {
        assert jobs[..|plans|][i] == jobs[i] && Planned(jobs[..|plans|][i], plans[i], named);
      }
    }
  }

  lemma RunMore(jobs: seq<Extracted>, plans: seq<Plan>, plan: Plan)
    requires |plans| < |jobs| && forall i | 0 <= i < |jobs| :: jobs[i].acknowledger
    ensures var n := |plans|;
            AllCalls(jobs[..n + 1], plans + [plan]) == AllCalls(jobs[..n], plans) + [Settle(jobs[n], plan).calls]
    ensures var n := |plans|;
            forall tick :: Ticks(jobs[..n + 1], plans + [plan], tick) ==
                           Ticks(jobs[..n], plans, tick) + if Settle(jobs[n], plan).tick == tick then 1 else 0
  {
    var n := |plans|;
    assert jobs[..n + 1][..n] == jobs[..n] && (plans + [plan])[..n] == plans;
  }

  /** The jobs of a run, by position, that count as done. */
  ghost function AllDone(jobs: seq<Extracted>): set<nat>
  {
    set i: nat | i < |jobs| && Done(jobs[i])
  }

  lemma DoneFront(jobs: seq<Extracted>)
    requires jobs != []
    ensures var n := |jobs| - 1;
            |AllDone(jobs)| == |AllDone(jobs[..n])| + if n in AllDone(jobs) then 1 else 0
  {
    var n := |jobs| - 1;
    assert AllDone(jobs) == AllDone(jobs[..n]) + if n in AllDone(jobs) then {n} else {};
  }

  /** The calls and the counter of round `i` of a run. */
  lemma RoundAsDue(jobs: seq<Extracted>, plans: seq<Plan>, named: set<string>, i: nat)
    requires |plans| == |jobs| && i < |jobs| && jobs[i].acknowledger && Planned(jobs[i], plans[i], named)
    ensures Settle(jobs[i], plans[i]).Round? && Due(jobs[i], Settle(jobs[i], plans[i]).calls)
    ensures Settle(jobs[i], plans[i]).tick == if i in AllDone(jobs) then OkTick else ErrTick
  {
    if Handles(jobs[i]) {
      PlannedObeys(jobs[i], plans[i], named);
    }
    SettledAsDue(jobs[i], plans[i]);
  }

  lemma {:induction false} CallsOf(jobs: seq<Extracted>, plans: seq<Plan>, i: nat)
    requires |plans| == |jobs| && forall k | 0 <= k < |jobs| :: jobs[k].acknowledger
    requires i < |jobs|
    ensures Settle(jobs[i], plans[i]).Round? && AllCalls(jobs, plans)[i] == Settle(jobs[i], plans[i]).calls
    decreases |jobs|
  {
    var n := |jobs| - 1;
    if i < n {
      CallsOf(jobs[..n], plans[..n], i);
    }
  }

  lemma {:induction false} TicksAreDone(jobs: seq<Extracted>, plans: seq<Plan>, named: set<string>)
    requires |plans| == |jobs| && forall k | 0 <= k < |jobs| :: jobs[k].acknowledger
    requires AllPlanned(jobs, plans, named)
    ensures Ticks(jobs, plans, OkTick) == |AllDone(jobs)|
    ensures Ticks(jobs, plans, ErrTick) == |jobs| - |AllDone(jobs)|
    decreases |jobs|
  {
    if jobs == [] {
      assert AllDone(jobs) == {};
    } else {
      var n := |jobs| - 1;
      TicksAreDone(jobs[..n], plans[..n], named);
      DoneFront(jobs);
      RoundAsDue(jobs, plans, named, n);
    }
  }

  /** A run in which every reply was planned for: each job gets the calls due to it, and the counters agree. */
  lemma EveryJobAsDue(jobs: seq<Extracted>, plans: seq<Plan>, named: set<string>)
    requires |plans| == |jobs| && forall i | 0 <= i < |jobs| :: jobs[i].acknowledger
    requires AllPlanned(jobs, plans, named)
    ensures forall i | 0 <= i < |jobs| :: Due(jobs[i], AllCalls(jobs, plans)[i])
    ensures Ticks(jobs, plans, OkTick) == |AllDone(jobs)|
    ensures Ticks(jobs, plans, ErrTick) == |jobs| - |AllDone(jobs)|
  {
    TicksAreDone(jobs, plans, named);
    forall i | 0 <= i < |jobs| ensures Due(jobs[i], AllCalls(jobs, plans)[i]) {
      RoundAsDue(jobs, plans, named, i);
      CallsOf(jobs, plans, i);
    }
  }

  /** Settlement over a run: every job is settled once or twice and counted exactly once. */
  lemma {:induction false} EveryJobIsCounted(jobs: seq<Extracted>, plans: seq<Plan>)
    requires |plans| == |jobs| && forall i | 0 <= i < |jobs| :: jobs[i].acknowledger
    ensures Ticks(jobs, plans, OkTick) + Ticks(jobs, plans, ErrTick) == |jobs|
    ensures forall i | 0 <= i < |jobs| :: Settled(jobs[i], AllCalls(jobs, plans)[i])
    decreases |jobs|
  {
    if jobs != [] {
      var n := |jobs| - 1;
      EveryJobIsCounted(jobs[..n], plans[..n]);
      SettledOnceOrTwice(jobs[n], plans[n]);
      assert forall i | 0 <= i < n :: jobs[..n][i] == jobs[i];
    }
  }
}
