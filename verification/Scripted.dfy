/** One request against a script: what the outside world answers it, call by call. The script
    decides what the request is charged, up to two things it cannot know: whether a slot was
    free, and whether the balance held. */
module Scripted {
  import opened Go
  import opened PaidRequest
  import opened PaidRequestTrace
  import opened PaidRequestCounts
  import opened PaidRequestLedger
  import opened PaidRequestMetrics

  datatype Script = Script(
    openOk: bool, payOk: bool, sender: Bytes, credit: int, estimate: Option<int64>, debitOk: bool,
    serveOk: bool, actual: int64, status: Option<nat>, reconcileOk: bool, closeOk: bool, ctx: CtxErr)

  /** The larger of the estimate and zero. */
  function Clamp(units: int64): (n: int64)
    ensures n >= units && n >= 0 && (n == units || n == 0)
  {
    if units < 0 then 0 else units
  }

  /** The reply of a turn is the script's answer to the call that the turn makes. */
  predicate Conforms(pc: Pc, reply: Reply, script: Script) {
    match pc
    case Opening => reply.ok == script.openOk
    case Paying =>
      reply.ok == script.payOk && (reply.ok ==> reply.sender == script.sender && reply.credit == script.credit)
    case Estimating => reply.ok == script.estimate.Some? && (reply.ok ==> reply.units == script.estimate.value)
    case Debiting => reply.ok == script.debitOk
    case Serving => reply.ok == script.serveOk && reply.units == script.actual && reply.status == script.status
    case Reconciling => reply.ok == script.reconcileOk
    case Closing => reply.ok == script.closeOk
    case Reporting => reply.ctx == script.ctx
    case _ => true
  }

  /** Every answer in the payment part is the script's, and the estimate is its clamped one. */
  predicate PayAnswered(h: Handler, script: Script) {
    && (h.pay.openOk.Some? ==> h.pay.openOk == Some(script.openOk))
    && (h.pay.paid.Some? ==> h.pay.paid == Some(script.payOk))
    && (h.pay.paid == Some(true) ==> h.pay.sender == script.sender && h.pay.credit == script.credit)
    && (h.pay.debited.Some? ==> h.pay.debited == Some(script.debitOk))
    && (h.pay.debited != Some(true) ==> h.pay.balance0 == 0)
    && (h.pc == Debiting || h.pay.debited.Some? ==>
          script.estimate.Some? && h.pay.estimate == Clamp(script.estimate.value))
  }

  predicate WorkAnswered(h: Handler, script: Script) {
    && (h.work.served.Some? ==>
          h.work.served == Some(script.serveOk) && h.work.actual == script.actual && h.tail.status == script.status)
    && (h.work.reconciled.Some? ==> h.work.reconciled == Some(script.reconcileOk))
    && (h.tail.closed.Some? ==> h.tail.closed == Some(script.closeOk))
    && (h.tail.reported.Some? && h.slot == Some(true) ==> h.tail.ctx == script.ctx)
  }

  /** What the middleware itself answers, and why: the first thing that goes wrong decides. None
      is a request that reaches Serve. */
  function RefusalBy(env: Env, req: Request, script: Script, slotFree: bool, balanceHolds: bool): Option<Refusal> {
    if !slotFree then Some(Refusal(503, None))
    else
      match Examine(env, req)
      case Refused(refusal, _) => Some(refusal)
      case Ready(_, _) =>
        if !script.openOk then Some(Refusal(502, None))
        else if !script.payOk then Some(Refusal(402, Some(ProcessPaymentFailed)))
        else if script.estimate.None? then Some(Refusal(400, None))
        else if !script.debitOk then Some(Refusal(502, Some(DebitError)))
        else if !balanceHolds then Some(Refusal(402, Some(InsufficientBalance)))
        else None
  }

  predicate Explained(env: Env, h: Handler, script: Script) {
    h.tail.refusal.Some? ==>
      h.tail.refusal == RefusalBy(env, h.req, script, h.slot == Some(true), h.pay.balance0 >= 0)
  }

  predicate Answered(env: Env, h: Handler, script: Script) {
    PayAnswered(h, script) && WorkAnswered(h, script) && Explained(env, h, script)
  }

  lemma BodyStaysAnswered(env: Env, h: Handler, free: bool, left: int, reply: Reply, script: Script)
    requires Consistent(h) && SessionOk(env, h) && Answered(env, h, script) && Conforms(h.pc, reply, script) && InBody(h.pc)
    ensures Answered(env, NextLocals(env, h, free, left, reply), script)
  {
  }

  lemma ServiceStaysAnswered(env: Env, h: Handler, free: bool, left: int, reply: Reply, script: Script)
    requires Consistent(h) && SessionOk(env, h) && Answered(env, h, script) && Conforms(h.pc, reply, script) && InService(h.pc)
    ensures Answered(env, NextLocals(env, h, free, left, reply), script)
  {
  }

  /** The gate and the tail leave the payment and the work alone. */
  lemma EdgesKeepAnswers(env: Env, h: Handler, free: bool, left: int, reply: Reply)
    requires !InBody(h.pc) && !InService(h.pc)
    ensures
      var h' := NextLocals(env, h, free, left, reply);
      && h'.req == h.req && h'.pay == h.pay && h'.work == h.work && h'.pc != Debiting
      && (h.pc != AtGate ==> h'.slot == h.slot && h'.tail.refusal == h.tail.refusal)
      && (h.pc == AtGate && h'.tail.refusal != h.tail.refusal ==>
            h'.slot == Some(false) && h'.tail.refusal == Some(Refusal(503, None)))
      && h'.tail.closed == (if h.pc == Closing then Some(reply.ok) else h.tail.closed)
      && h'.tail.ctx == (if h.pc == Reporting then reply.ctx else h.tail.ctx)
      && (h'.tail.reported != h.tail.reported ==> h.pc == Reporting || h.pc == Shedding)
      && (h'.tail.status != h.tail.status ==> h.pc == Refusing)
  {
  }

  lemma EdgesStayAnswered(env: Env, h: Handler, free: bool, left: int, reply: Reply, script: Script)
    requires Consistent(h) && SessionOk(env, h) && Answered(env, h, script) && Conforms(h.pc, reply, script)
    requires !InBody(h.pc) && !InService(h.pc)
    ensures Answered(env, NextLocals(env, h, free, left, reply), script)
  {
    EdgesKeepAnswers(env, h, free, left, reply);
    assert h.pc == Shedding ==> h.slot == Some(false);
    assert h.pc == Refusing ==> h.work.served.None?;
  }

  lemma TurnStaysAnswered(env: Env, h: Handler, free: bool, left: int, reply: Reply, script: Script)
    requires Consistent(h) && SessionOk(env, h) && Answered(env, h, script) && Conforms(h.pc, reply, script)
    ensures Answered(env, NextLocals(env, h, free, left, reply), script)
  {
    if InBody(h.pc) {
      BodyStaysAnswered(env, h, free, left, reply, script);
    } else if InService(h.pc) {
      ServiceStaysAnswered(env, h, free, left, reply, script);
    } else {
      EdgesStayAnswered(env, h, free, left, reply, script);
    }
  }

  /** The script lets an admissible request through its upfront debit. */
  predicate Grants(script: Script) {
    script.openOk && script.payOk && script.estimate.Some? && script.debitOk
  }

  /** What the script makes a request cost: nothing when it is not admitted or not granted; the
      actual units when the balance holds, Serve succeeds above the estimate and the reconcile
      goes through; the clamped estimate otherwise. */
  function ChargeOf(script: Script, admitted: bool, balanceHolds: bool): int {
    if !admitted || !Grants(script) then 0
    else
      var estimate := Clamp(script.estimate.value);
      if balanceHolds && script.serveOk && script.actual > estimate && script.reconcileOk then script.actual
      else estimate
  }

  /** At the end of a request the refusal it got, if any, is the one the script makes for it. */
  lemma FinishedRefusal(env: Env, h: Handler, script: Script)
    requires Consistent(h) && SessionOk(env, h) && Answered(env, h, script) && h.pc == Done
    ensures h.tail.refusal == RefusalBy(env, h.req, script, h.slot == Some(true), h.pay.balance0 >= 0)
    ensures h.tail.refusal.None? <==> h.work.served.Some?
  {
    if h.tail.refusal.None? {
      assert h.work.served.Some?;
      assert h.pay.openOk == Some(true) && h.pay.paid == Some(true) && h.pay.debited == Some(true);
    }
  }

  /** And its debits are as granted. */
  lemma FinishedAnswers(env: Env, h: Handler, script: Script)
    requires Consistent(h) && SessionOk(env, h) && Answered(env, h, script) && h.pc == Done
    ensures h.pay.debited == Some(true) <==> h.slot == Some(true) && Examine(env, h.req).Ready? && Grants(script)
    ensures h.pay.debited == Some(true) ==> (h.work.served.Some? <==> h.pay.balance0 >= 0)
  {
    FinishedRefusal(env, h, script);
    match h.pay.debited {
      case None =>
      case Some(ok) => assert h.pay.debited == Some(ok);
    }
  }

  /** The status the client is sent: the refusal's, or what the module wrote. */
  function StatusBy(env: Env, req: Request, script: Script, slotFree: bool, balanceHolds: bool): Option<nat> {
    var refusal := RefusalBy(env, req, script, slotFree, balanceHolds);
    if refusal.Some? then Some(refusal.value.status) else script.status
  }

  /** The series of the request counter that the request is counted on. */
  function SeriesBy(env: Env, req: Request, script: Script, slotFree: bool, balanceHolds: bool): (Label, Outcome) {
    var tag := Label(req.capability, if slotFree && Readable(req) then req.model.value else UNSET);
    var status := StatusBy(env, req, script, slotFree, balanceHolds);
    (tag, if !slotFree then Outcome5xx else ClassifyOutcome(script.ctx, if status.Some? then status.value else 0))
  }

  /** Status and outcome of a finished request, from the answers it had. */
  lemma ScriptedOutcome(env: Env, schedule: seq<Move>, r: nat, script: Script)
    requires r < |Exec(env, schedule).handlers| && Exec(env, schedule).handlers[r].pc == Done
    requires Answered(env, Exec(env, schedule).handlers[r], script)
    ensures
      var h := Exec(env, schedule).handlers[r];
      var slotFree, balanceHolds := h.slot == Some(true), h.pay.balance0 >= 0;
      && h.tail.status == StatusBy(env, h.req, script, slotFree, balanceHolds)
      && h.tail.reported.Some?
      && (LabelOf(h), h.tail.reported.value) == SeriesBy(env, h.req, script, slotFree, balanceHolds)
  {
    ExecLocals(env, schedule);
    ExecSessions(env, schedule);
    ExecOutcomes(env, schedule);
    FinishedSeries(env, Exec(env, schedule).handlers[r], script);
  }

  lemma FinishedSeries(env: Env, h: Handler, script: Script)
    requires Consistent(h) && SessionOk(env, h) && OutcomeOk(h) && Answered(env, h, script) && h.pc == Done
    ensures
      var slotFree, balanceHolds := h.slot == Some(true), h.pay.balance0 >= 0;
      && h.tail.status == StatusBy(env, h.req, script, slotFree, balanceHolds)
      && h.tail.reported.Some?
      && (LabelOf(h), h.tail.reported.value) == SeriesBy(env, h.req, script, slotFree, balanceHolds)
  {
    FinishedRefusal(env, h, script);
    match h.slot {
      case None =>
      case Some(ok) => assert h.slot == Some(ok);
    }
  }

  lemma ScriptedCharge(env: Env, schedule: seq<Move>, r: nat, script: Script)
    requires r < |Exec(env, schedule).handlers| && Exec(env, schedule).handlers[r].pc == Done
    requires Answered(env, Exec(env, schedule).handlers[r], script)
    ensures
      var s := Exec(env, schedule);
      var h := s.handlers[r];
      Charged(Trace(s.log, r))
      == ChargeOf(script, h.slot == Some(true) && Examine(env, h.req).Ready?, h.pay.balance0 >= 0)
  {
    FinishedCharge(env, schedule, r);
    ExecLocals(env, schedule);
    ExecSessions(env, schedule);
    FinishedAnswers(env, Exec(env, schedule).handlers[r], script);
  }
}
