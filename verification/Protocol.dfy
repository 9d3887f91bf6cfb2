/**
 The worker response protocol: `RespHandler.Handle` decodes a reply into structs taken from pools
 and makes one settlement call.

 JSON is foreign here.  A reply is given by what decoding assigns: a field that the text does not
 carry leaves the struct as the pool had it, and a decoding that fails may have assigned some
 fields before it did.
 */
module Protocol {
  import opened Text

  type Headers = map<string, seq<string>>

  /** The structs that decoding fills in. */
  datatype Envelope = Envelope(kind: nat, data: Option<Raw>)
  datatype ErrorResp = ErrorResp(msg: string, requeue: bool, delay: int, headers: Headers)
  datatype QueueResp = QueueResp(queue: string, payload: string)

  const NO_ERROR: nat := 0
  const ERROR: nat := 1
  const RESPONSE: nat := 2

  const NEW_ENVELOPE := Envelope(NO_ERROR, None)
  const NEW_ERROR := ErrorResp("", false, 0, map[])
  const NEW_QUEUE := QueueResp("", "")

  /** What decoding a text as each of the structs assigns. */
  datatype EnvelopeText = EnvelopeText(ok: bool, kind: Option<nat>, data: Option<Raw>)
  datatype ErrorText = ErrorText(
    ok: bool,
    msg: Option<string>,
    requeue: Option<bool>,
    delay: Option<int>,
    headers: Option<Headers>)
  datatype QueueText = QueueText(ok: bool, queue: Option<string>, payload: Option<string>)

  /** The inner document, which is decoded one way or the other. */
  datatype Raw = Raw(asError: ErrorText, asQueue: QueueText)

  /** Decoding no bytes at all fails and assigns nothing. */
  const NO_ERROR_TEXT := ErrorText(false, None, None, None, None)
  const NO_QUEUE_TEXT := QueueText(false, None, None)

  function FillEnvelope(p: Envelope, x: EnvelopeText): Envelope
  {
    Envelope(x.kind.GetOr(p.kind), if x.data.Some? then x.data else p.data)
  }

  function FillError(p: ErrorResp, x: ErrorText): ErrorResp
  {
    ErrorResp(x.msg.GetOr(p.msg), x.requeue.GetOr(p.requeue), x.delay.GetOr(p.delay),
              if x.headers.Some? then p.headers + x.headers.value else p.headers)
  }

  function FillQueue(p: QueueResp, x: QueueText): QueueResp
  {
    QueueResp(x.queue.GetOr(p.queue), x.payload.GetOr(p.payload))
  }

  /** A call on the job's acknowledger. */
  datatype Call = Ack | Nack | Requeue(headers: Headers, delay: int) | Respond(payload: string, queue: string)

  /** What one reply leads to: the call made, if any, and whether its error is passed on. */
  datatype Plan = Plan(call: Option<Call>, strict: bool)

  function ErrorData(data: Option<Raw>): ErrorText
  {
    if data.Some? then data.value.asError else NO_ERROR_TEXT
  }

  function QueueData(data: Option<Raw>): QueueText
  {
    if data.Some? then data.value.asQueue else NO_QUEUE_TEXT
  }

  /** The plan for a reply, given the structs the pools happen to yield. */
  function PlanWith(x: EnvelopeText, p: Envelope, e: ErrorResp, q: QueueResp): Plan
  {
    var env := FillEnvelope(p, x);
    if !x.ok then Plan(None, true)
    else if env.kind == ERROR then
      var er := FillError(e, ErrorData(env.data));
      if !ErrorData(env.data).ok then Plan(None, true)
      else if er.requeue then Plan(Some(Requeue(er.headers, er.delay)), true)
      else Plan(Some(Ack), false)
    else if env.kind == RESPONSE then
      var qr := FillQueue(q, QueueData(env.data));
      if !QueueData(env.data).ok then Plan(None, true)
      else Plan(Some(Respond(qr.payload, qr.queue)), true)
    else Plan(Some(Ack), true)
  }

  /** The error `Handle` returns: none made is an error, a failed call is one where it is passed on. */
  function HandleFails(plan: Plan, callOk: bool): bool
  {
    plan.call.None? || (!callOk && plan.strict)
  }

  /** The reply with every pool fresh: what its bytes alone ask for. */
  function Asked(x: EnvelopeText): Plan
  {
    PlanWith(x, NEW_ENVELOPE, NEW_ERROR, NEW_QUEUE)
  }

  /**
   The reply table, in the protocol's own numbers: 1 is an error, 2 a response, and any other type,
   or none, a success.  A reply that cannot be decoded leads to no call.
   */
  predicate Obeys(x: EnvelopeText, plan: Plan)
  {
    if !x.ok then plan == Plan(None, true)
    else if x.kind == Some(1) then
      if x.data.None? || !x.data.value.asError.ok then plan == Plan(None, true)
      else if x.data.value.asError.requeue == Some(true) then
        && plan.call.Some? && plan.call.value.Requeue? && plan.strict
        && plan.call.value.headers == x.data.value.asError.headers.GetOr(map[])
        && plan.call.value.delay == x.data.value.asError.delay.GetOr(0)
      else plan == Plan(Some(Ack), false)
    else if x.kind == Some(2) then
      if x.data.None? || !x.data.value.asQueue.ok then plan == Plan(None, true)
      else
        && plan.call.Some? && plan.call.value.Respond? && plan.strict
        && plan.call.value.queue == x.data.value.asQueue.queue.GetOr("")
        && (x.data.value.asQueue.payload.Some? ==> plan.call.value.payload == x.data.value.asQueue.payload.value)
    else plan == Plan(Some(Ack), true)
  }

  /** What a reply asks for is what the table says, with an empty payload where it names none. */
  lemma AskedObeys(x: EnvelopeText)
    ensures Obeys(x, Asked(x))
    ensures x.ok && x.kind == Some(2) && x.data.Some? && x.data.value.asQueue.ok ==>
            Asked(x).call.value.payload == x.data.value.asQueue.payload.GetOr("")
  {
    if x.data.Some? && x.data.value.asError.headers.Some? {
      assert map[] + x.data.value.asError.headers.value == x.data.value.asError.headers.value;
    }
  }

  /** A response that is decoded and names no payload. */
  predicate NamesNoPayload(x: EnvelopeText)
  {
    && x.ok && x.kind == Some(RESPONSE) && x.data.Some?
    && x.data.value.asQueue.ok && x.data.value.asQueue.payload.None?
  }

  /** What the pools may hold between calls: everything is reset on return except a payload. */
  predicate Poolable(p: Envelope, e: ErrorResp, q: QueueResp)
  {
    p == NEW_ENVELOPE && e == NEW_ERROR && q.queue == ""
  }

  /** Whatever the pools hold, only a missing payload is filled in from what was there before. */
  lemma PlanFromPools(x: EnvelopeText, p: Envelope, e: ErrorResp, q: QueueResp)
    requires Poolable(p, e, q)
    ensures PlanWith(x, p, e, q) ==
            if NamesNoPayload(x) then Plan(Some(Respond(q.payload, x.data.value.asQueue.queue.GetOr(""))), true)
            else Asked(x)
  {
  }

  /**
   History independence: a reply leads to the same call whatever was handled before it, exactly
   when it is not a response that names no payload.
   */
  lemma HistoryIndependentExactly(x: EnvelopeText)
    ensures (forall p, e, q | Poolable(p, e, q) :: PlanWith(x, p, e, q) == Asked(x)) <==> !NamesNoPayload(x)
  {
    forall p, e, q | Poolable(p, e, q)
      ensures NamesNoPayload(x) || PlanWith(x, p, e, q) == Asked(x)
    {
      PlanFromPools(x, p, e, q);
    }
    if NamesNoPayload(x) {
      var q := QueueResp("", "left over");
      assert Poolable(NEW_ENVELOPE, NEW_ERROR, q);
      PlanFromPools(x, NEW_ENVELOPE, NEW_ERROR, q);
      PlanFromPools(x, NEW_ENVELOPE, NEW_ERROR, NEW_QUEUE);
      assert PlanWith(x, NEW_ENVELOPE, NEW_ERROR, q) != Asked(x);
    }
  }

  /** The response handler: pools of structs, from which `Get` takes any one or makes a new one. */
  class RespHandler {
    var pPool: seq<Envelope>
    var ePool: seq<ErrorResp>
    var qPool: seq<QueueResp>
    ghost var named: set<string>   // payloads that replies have named so far

    ghost predicate Valid()
      reads this
    {
      && (forall i | 0 <= i < |pPool| :: pPool[i] == NEW_ENVELOPE)
      && (forall i | 0 <= i < |ePool| :: ePool[i] == NEW_ERROR)
      && (forall i | 0 <= i < |qPool| :: qPool[i].queue == "" && qPool[i].payload in named + {""})
    }

    constructor ()
      ensures Valid() && named == {} && qPool == []
    {
      pPool, ePool, qPool, named := [], [], [], {};
    }

    method GetProtocol(choice: nat) returns (p: Envelope)
      requires Valid()
      modifies this`pPool
      ensures Valid() && p == NEW_ENVELOPE
    {
      p := NEW_ENVELOPE;
      if choice < |pPool| {
        p := pPool[choice];
        pPool := pPool[..choice] + pPool[choice + 1..];
      }
    }

    method GetErrResp(choice: nat) returns (e: ErrorResp)
      requires Valid()
      modifies this`ePool
      ensures Valid() && e == NEW_ERROR
    {
      e := NEW_ERROR;
      if choice < |ePool| {
        e := ePool[choice];
        ePool := ePool[..choice] + ePool[choice + 1..];
      }
    }

    method GetQResp(choice: nat) returns (q: QueueResp)
      requires Valid()
      modifies this`qPool
      ensures Valid() && q.queue == "" && q.payload in named + {""}
      ensures choice < old(|qPool|) ==> q == old(qPool)[choice]
      ensures old(qPool) == [] ==> qPool == [] && q == NEW_QUEUE
    {
      q := NEW_QUEUE;
      if choice < |qPool| {
        q := qPool[choice];
        qPool := qPool[..choice] + qPool[choice + 1..];
      }
    }

    /** `handleErrResp` up to its settlement call. */
    method HandleErrResp(x: ErrorText, choice: nat) returns (plan: Plan)
      requires Valid()
      modifies this`ePool
      ensures Valid()
      ensures plan == if !x.ok then Plan(None, true)
                      else if x.requeue.GetOr(false) then
                        Plan(Some(Requeue(x.headers.GetOr(map[]), x.delay.GetOr(0))), true)
                      else Plan(Some(Ack), false)
    {
      var er := GetErrResp(choice);
      er := FillError(er, x);
      if !x.ok {
        plan := Plan(None, true);
      } else if er.requeue {
        plan := Plan(Some(Requeue(er.headers, er.delay)), true);
      } else {
        plan := Plan(Some(Ack), false);
      }
      assert x.headers.Some? ==> map[] + x.headers.value == x.headers.value;
      er := ErrorResp("", false, 0, map[]);
      ePool := ePool + [er];
    }

    /** `handleQueueResp` up to its settlement call; the payload is not reset on return. */
    method HandleQueueResp(x: QueueText, choice: nat) returns (plan: Plan)
      requires Valid()
      modifies this`qPool, this`named
      ensures Valid() && named == old(named) + (if x.payload.Some? then {x.payload.value} else {})
      ensures plan.strict && (plan.call.None? <==> !x.ok)
      ensures x.ok ==> plan.call.value.Respond? && plan.call.value.queue == x.queue.GetOr("")
      ensures x.ok && x.payload.Some? ==> plan.call.value.payload == x.payload.value
      ensures x.ok && x.payload.None? ==> plan.call.value.payload in old(named) + {""}
      ensures x.ok && x.payload.None? && choice < old(|qPool|) ==> plan.call.value.payload == old(qPool)[choice].payload
      ensures old(qPool) == [] ==> qPool == [QueueResp("", x.payload.GetOr(""))]
    {
      var qs := GetQResp(choice);
      qs := FillQueue(qs, x);
      plan := Plan(if x.ok then Some(Respond(qs.payload, qs.queue)) else None, true);
      named := named + if x.payload.Some? then {x.payload.value} else {};
      qs := qs.(queue := "");
      qPool := qPool + [qs];
    }

    /** `Handle`: the call it makes, and whether its failure would be returned. */
    method Handle(x: EnvelopeText, choice: nat) returns (plan: Plan)
      requires Valid()
      modifies this
      ensures Valid() && old(named) <= named && Obeys(x, plan)
      ensures !NamesNoPayload(x) ==> plan == Asked(x)
      ensures NamesNoPayload(x) ==> plan.call.Some? && plan.call.value.Respond? && plan.strict
      ensures NamesNoPayload(x) ==> plan.call.value.payload in old(named) + {""}
      ensures NamesNoPayload(x) ==> plan.call.value.queue == x.data.value.asQueue.queue.GetOr("")
      ensures NamesNoPayload(x) && choice < old(|qPool|) ==> plan.call.value.payload == old(qPool)[choice].payload
      ensures x.ok && x.kind == Some(RESPONSE) && x.data.Some? && old(qPool) == [] ==>
              qPool == [QueueResp("", x.data.value.asQueue.payload.GetOr(""))]
    {
      var p := GetProtocol(choice);
      p := FillEnvelope(p, x);
      ghost var headers := ErrorData(p.data).headers;
      assert headers.Some? ==> map[] + headers.value == headers.value;
      if !x.ok {
        plan := Plan(None, true);
      } else if p.kind == ERROR {
        plan := HandleErrResp(ErrorData(p.data), choice);
      } else if p.kind == RESPONSE {
        plan := HandleQueueResp(QueueData(p.data), choice);
      } else {
        plan := Plan(Some(Ack), true);
      }
      p := Envelope(0, None);
      pPool := pPool + [p];
    }
  }

  /** A reply that names a payload, then one that does not: the second answers with the first's payload. */
  method LeakedPayload(other: Raw, earlier: string, queue: string) returns (plan: Plan)
    ensures plan == Plan(Some(Respond(earlier, queue)), true)
  {
    var h := new RespHandler();
    var named := other.(asQueue := QueueText(true, Some("elsewhere"), Some(earlier)));
    var first := EnvelopeText(true, Some(RESPONSE), Some(named));
    plan := h.Handle(first, 0);
    var second := EnvelopeText(true, Some(RESPONSE), Some(other.(asQueue := QueueText(true, Some(queue), None))));
    plan := h.Handle(second, 0);
  }
}
