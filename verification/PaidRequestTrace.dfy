/** What one request does, whatever the others do: its trace is a function of its locals. */
module PaidRequestTrace {
  import opened Go
  import opened Ledger
  import opened PaidRequest

  function If(happened: bool, t: History, e: Event): History { if happened then Then(t, e) else t }

  /** The calls up to the upfront debit, in program order. */
  function EarlyTrace(r: nat, h: Handler): History {
    var a := AccountOf(h);
    var t0 := If(h.slot == Some(false), If(h.slot == Some(true), Start, Acquired(r)), Shed(r));
    var t1 := If(h.pay.openOk.Some?, t0, Opened(r, h.session, h.pay.openOk == Some(true)));
    var t2 := If(h.pay.paid.Some?, t1, Paid(r, a, h.pay.credit, h.pay.paid == Some(true)));
    If(h.pay.debited.Some?, t2, Debited(r, a, h.pay.estimate, true, h.pay.debited == Some(true), h.pay.balance0))
  }

  /** And the module call, the work-units metric and the reconciling debit. */
  function BodyTrace(r: nat, h: Handler): History {
    var a := AccountOf(h);
    var t4 := If(h.work.entered, EarlyTrace(r, h), Entered(r));
    var t5 := If(h.work.served.Some?, t4, Served(r, h.work.served == Some(true), h.work.actual));
    var t6 := If(h.work.metered, t5, Metered(r, LabelOf(h), h.work.actual));
    If(h.work.reconciled.Some?, t6, Debited(r, a, h.work.actual - h.pay.estimate, false, h.work.reconciled == Some(true), h.work.balance))
  }

  /** The whole of it: after the body a refusal, if any, and then the deferred functions, last
      registered first. */
  function Expected(r: nat, h: Handler): History {
    var t0 := BodyTrace(r, h);
    var t1 := If(h.tail.wrote, t0, Wrote(r, RefusalOf(h).status, RefusalOf(h).reason));
    var t2 := If(h.tail.closed.Some?, t1, Closed(r, AccountOf(h), h.tail.closed == Some(true)));
    var t3 := If(h.tail.reported.Some?, t2, Reported(r, LabelOf(h), OutcomeOf(h), h.tail.ctx));
    If(h.tail.released, t3, Released(r))
  }

  /** How far the body of the pipeline got, and what it can have learned by then. */
  predicate BodyOk(h: Handler) {
    && (h.pay.openOk.Some? ==> h.slot == Some(true) && |h.session.workID| == 64)
    && (h.pay.paid.Some? ==> h.pay.openOk == Some(true))
    && (h.pay.debited.Some? ==> h.pay.paid == Some(true) && h.pay.estimate >= 0)
    && (h.work.entered ==> h.pay.debited == Some(true) && h.pay.balance0 >= 0)
    && (h.work.served.Some? ==> h.work.entered)
    && (h.work.metered ==> h.work.served == Some(true) && h.work.actual > 0)
    && (h.work.reconciled.Some? ==> h.work.served == Some(true) && h.work.actual > h.pay.estimate)
  }

  /** A refusal is decided before Serve, and it counts as a payment rejection exactly when it
      is a 402 or comes from a failed upfront debit. */
  predicate RefusalOk(h: Handler) {
    && (h.tail.wrote ==> h.tail.refusal.Some?)
    && (h.tail.refusal.Some? ==>
          && h.slot.Some?
          && !h.work.entered
          && (h.tail.refusal.value.reason.Some? <==> h.tail.refusal.value.status == 402 || h.pay.debited == Some(false)))
    && (h.pay.debited == Some(false) ==> h.tail.refusal == Some(Refusal(502, Some(DebitError))))
    && (h.slot == Some(false) ==> h.pay.openOk.None? && h.tail.refusal == Some(Refusal(503, None)))
  }

  predicate NoTail(h: Handler) { !h.tail.wrote && NoDefers(h) && h.tail.refusal.None? }

  predicate NoDefers(h: Handler) { h.tail.closed.None? && h.tail.reported.None? && !h.tail.released }

  /** The body has returned and owes nothing but its deferred functions. */
  predicate BodyDone(h: Handler) {
    && h.slot == Some(true)
    && (h.tail.refusal.Some? ==> h.tail.wrote)
    && (h.tail.refusal.None? ==> h.work.served.Some?)
    && (h.work.served == Some(true) ==> (h.work.metered <==> h.work.actual > 0) && (h.work.reconciled.Some? <==> h.work.actual > h.pay.estimate))
  }

  predicate AtPc(h: Handler) {
    match h.pc
    case AtGate => h.slot.None? && h.pay.openOk.None? && NoTail(h)
    case Shedding => h.slot == Some(false) && h.tail.wrote && NoDefers(h)
    case Examining => h.slot == Some(true) && h.pay.openOk.None? && NoTail(h)
    case Opening => h.slot == Some(true) && h.pay.openOk.None? && |h.session.workID| == 64 && NoTail(h)
    case Paying => h.pay.openOk == Some(true) && h.pay.paid.None? && NoTail(h)
    case Estimating => h.pay.paid == Some(true) && h.pay.debited.None? && NoTail(h)
    case Debiting => h.pay.paid == Some(true) && h.pay.debited.None? && h.pay.estimate >= 0 && NoTail(h)
    case Entering => h.pay.debited == Some(true) && h.pay.balance0 >= 0 && !h.work.entered && NoTail(h)
    case Serving => h.work.entered && h.work.served.None? && NoTail(h)
    case Metering => h.work.served == Some(true) && !h.work.metered && h.work.reconciled.None? && NoTail(h)
    case Reconciling =>
      && h.work.served == Some(true) && h.work.actual > h.pay.estimate && h.work.metered
      && h.work.reconciled.None? && NoTail(h)
    case Counting =>
      h.slot == Some(true) && h.tail.refusal.Some? && h.tail.refusal.value.reason.Some? && !h.tail.wrote && NoDefers(h)
    case Refusing => h.tail.refusal.Some? && !h.tail.wrote && NoDefers(h)
    case Closing => BodyDone(h) && h.pay.paid == Some(true) && NoDefers(h)
    case Reporting =>
      BodyDone(h) && (h.pay.paid == Some(true) <==> h.tail.closed.Some?) && h.tail.reported.None? && !h.tail.released
    case Releasing =>
      BodyDone(h) && (h.pay.paid == Some(true) <==> h.tail.closed.Some?) && h.tail.reported.Some? && !h.tail.released
    case Done =>
      && h.tail.reported.Some?
      && (if h.slot == Some(false) then h.tail.wrote && h.tail.closed.None? && !h.tail.released
          else BodyDone(h) && (h.pay.paid == Some(true) <==> h.tail.closed.Some?) && h.tail.released)
  }

  predicate Consistent(h: Handler) { BodyOk(h) && RefusalOk(h) && AtPc(h) }

  ghost predicate Locals(s: State) {
    && (forall r: nat :: r < |s.handlers| ==>
          Consistent(s.handlers[r]) && Trace(s.log, r) == Expected(r, s.handlers[r]))
    && forall i :: 0 <= i < |s.log| ==> s.log[i].r < |s.handlers|
  }

  // ----- one turn -----

  function Extend(t: History, e: Option<Event>): History {
    if e.Some? then Then(t, e.value) else t
  }

  ghost predicate InBody(pc: Pc) { pc in {Examining, Opening, Paying, Estimating, Debiting} }
  ghost predicate InService(pc: Pc) { pc in {Entering, Serving, Metering, Reconciling} }

  lemma ExaminingStaysConsistent(env: Env, h: Handler, free: bool, left: int, reply: Reply)
    requires Consistent(h) && h.pc == Examining
    ensures Consistent(NextLocals(env, h, free, left, reply))
  {
  }

  lemma DebitingStaysConsistent(env: Env, h: Handler, free: bool, left: int, reply: Reply)
    requires Consistent(h) && h.pc == Debiting
    ensures Consistent(NextLocals(env, h, free, left, reply))
  {
  }

  lemma BodyStaysConsistent(env: Env, h: Handler, free: bool, left: int, reply: Reply)
    requires Consistent(h) && InBody(h.pc)
    ensures Consistent(NextLocals(env, h, free, left, reply))
  {
    match h.pc {
      case Examining => ExaminingStaysConsistent(env, h, free, left, reply);
      case Debiting => DebitingStaysConsistent(env, h, free, left, reply);
      case Opening =>
      case Paying =>
      case Estimating =>
    }
  }

  lemma ServiceStaysConsistent(env: Env, h: Handler, free: bool, left: int, reply: Reply)
    requires Consistent(h) && InService(h.pc)
    ensures Consistent(NextLocals(env, h, free, left, reply))
  {
  }

  lemma RefusingStaysConsistent(env: Env, h: Handler, free: bool, left: int, reply: Reply)
    requires Consistent(h) && h.pc == Refusing
    ensures Consistent(NextLocals(env, h, free, left, reply))
  {
    match h.slot
    case None =>
    case Some(held) => assert h.slot == Some(held);
  }

  lemma DefersStayConsistent(env: Env, h: Handler, free: bool, left: int, reply: Reply)
    requires Consistent(h) && (h.pc == Closing || h.pc == Reporting || h.pc == Releasing)
    ensures Consistent(NextLocals(env, h, free, left, reply))
  {
  }

  lemma EdgesStayConsistent(env: Env, h: Handler, free: bool, left: int, reply: Reply)
    requires Consistent(h) && !InBody(h.pc) && !InService(h.pc)
    ensures Consistent(NextLocals(env, h, free, left, reply))
  {
    match h.pc {
      case AtGate =>
      case Shedding =>
      case Counting =>
      case Refusing => RefusingStaysConsistent(env, h, free, left, reply);
      case Closing => DefersStayConsistent(env, h, free, left, reply);
      case Reporting => DefersStayConsistent(env, h, free, left, reply);
      case Releasing => DefersStayConsistent(env, h, free, left, reply);
      case Done =>
    }
  }

  lemma BodyTraceGrows(r: nat, env: Env, h: Handler, free: bool, left: int, reply: Reply)
    requires Consistent(h) && InBody(h.pc)
    ensures var h' := NextLocals(env, h, free, left, reply);
            Expected(r, h') == Extend(Expected(r, h), Emitted(r, h, h'))
  {
    match h.pc {
      case Examining =>
      case Opening =>
      case Paying =>
      case Estimating =>
      case Debiting =>
    }
  }

  lemma ServiceTraceGrows(r: nat, env: Env, h: Handler, free: bool, left: int, reply: Reply)
    requires Consistent(h) && InService(h.pc)
    ensures var h' := NextLocals(env, h, free, left, reply);
            Expected(r, h') == Extend(Expected(r, h), Emitted(r, h, h'))
  {
    match h.pc {
      case Entering =>
      case Serving =>
      case Metering =>
      case Reconciling =>
    }
  }

  lemma EdgesTraceGrows(r: nat, env: Env, h: Handler, free: bool, left: int, reply: Reply)
    requires Consistent(h) && !InBody(h.pc) && !InService(h.pc)
    ensures var h' := NextLocals(env, h, free, left, reply);
            Expected(r, h') == Extend(Expected(r, h), Emitted(r, h, h'))
  {
    match h.pc {
      case AtGate =>
      case Shedding =>
      case Counting =>
      case Refusing =>
      case Closing =>
      case Reporting =>
      case Releasing =>
      case Done =>
    }
  }

  /** One turn keeps a handler's locals consistent, and emits exactly what its expected trace
      grows by. */
  lemma TurnAdvances(r: nat, env: Env, h: Handler, free: bool, left: int, reply: Reply)
    requires Consistent(h)
    ensures var h' := NextLocals(env, h, free, left, reply);
            && Consistent(h')
            && Expected(r, h') == Extend(Expected(r, h), Emitted(r, h, h'))
  {
    if InBody(h.pc) {
      BodyStaysConsistent(env, h, free, left, reply);
      BodyTraceGrows(r, env, h, free, left, reply);
    } else if InService(h.pc) {
      ServiceStaysConsistent(env, h, free, left, reply);
      ServiceTraceGrows(r, env, h, free, left, reply);
    } else {
      EdgesStayConsistent(env, h, free, left, reply);
      EdgesTraceGrows(r, env, h, free, left, reply);
    }
  }

  lemma TraceAppend(log: seq<Event>, e: Option<Event>, r: nat)
    ensures Trace(Append(log, e), r) == if e.Some? && e.value.r == r then Then(Trace(log, r), e.value) else Trace(log, r)
  {
    if e.Some? {
      assert (log + [e.value])[..|log|] == log;
    }
  }

  lemma {:induction false} TraceOfUnknown(log: seq<Event>, q: nat)
    requires forall i :: 0 <= i < |log| ==> log[i].r != q
    ensures Trace(log, q) == Start
    decreases |log|
  {
    if log != [] {
      TraceOfUnknown(log[..|log| - 1], q);
    }
  }

  // ----- all handlers, all schedules -----

  lemma TurnKeepsLocals(env: Env, s: State, r: nat, reply: Reply)
    requires Locals(s) && r < |s.handlers|
    ensures Locals(Turned(env, s, r, reply))
  {
    var h := s.handlers[r];
    var s' := Turned(env, s, r, reply);
    var e := Emitted(r, h, s'.handlers[r]);
    TurnAdvances(r, env, h, s.inflight < Slots(env), BalanceAfterDebit(env, s, h), reply);
    forall q: nat | q < |s'.handlers|
      ensures Consistent(s'.handlers[q]) && Trace(s'.log, q) == Expected(q, s'.handlers[q])
    {
      TraceAppend(s.log, e, q);
      if q != r { assert s'.handlers[q] == s.handlers[q]; }
    }
  }

  lemma StepKeepsLocals(env: Env, s: State, m: Move)
    requires Locals(s)
    ensures Locals(Step(env, s, m))
  {
    match m
    case Arrive(req) =>
      var s' := Step(env, s, m);
      TraceOfUnknown(s.log, |s.handlers|);
      assert Expected(|s.handlers|, Fresh(req)) == Start;
      assert forall q :: 0 <= q < |s.handlers| ==> s'.handlers[q] == s.handlers[q];
    case Turn(r, reply) =>
      if r < |s.handlers| {
        TurnKeepsLocals(env, s, r, reply);
      }
  }

  lemma {:induction false} ExecLocals(env: Env, schedule: seq<Move>)
    ensures Locals(Exec(env, schedule))
    decreases |schedule|
  {
    if schedule != [] {
      var n := |schedule| - 1;
      ExecLocals(env, schedule[..n]);
      StepKeepsLocals(env, Exec(env, schedule[..n]), schedule[n]);
    }
  }
}
