/** Slots, charges and metrics: what adds up over all requests of every schedule. */
module PaidRequestCounts {
  import opened Go
  import opened Ledger
  import opened PaidRequest
  import opened PaidRequestTrace

  // ----- sums -----

  /** A quantity of one handler, summed over all of them. */
  ghost function Sum(hs: seq<Handler>, f: Handler -> int): int {
    if hs == [] then 0 else Sum(hs[..|hs| - 1], f) + f(hs[|hs| - 1])
  }

  lemma {:induction false} SumUpdate(hs: seq<Handler>, r: nat, h: Handler, f: Handler -> int)
    requires r < |hs|
    ensures Sum(hs[r := h], f) == Sum(hs, f) - f(hs[r]) + f(h)
    decreases |hs|
  {
    var n := |hs| - 1;
    if r == n {
      assert hs[r := h][..n] == hs[..n];
    } else {
      assert hs[r := h][..n] == hs[..n][r := h];
      SumUpdate(hs[..n], r, h, f);
    }
  }

  lemma SumPush(hs: seq<Handler>, h: Handler, f: Handler -> int)
    ensures Sum(hs + [h], f) == Sum(hs, f) + f(h)
  {
    assert (hs + [h])[..|hs|] == hs;
  }

  lemma {:induction false} SumLe(hs: seq<Handler>, f: Handler -> int, g: Handler -> int)
    requires forall i :: 0 <= i < |hs| ==> f(hs[i]) <= g(hs[i])
    ensures Sum(hs, f) <= Sum(hs, g)
    decreases |hs|
  {
    if hs != [] {
      SumLe(hs[..|hs| - 1], f, g);
    }
  }

  /** A quantity of one event, summed over a log. */
  ghost function Tally(log: seq<Event>, f: Event -> int): int {
    if log == [] then 0 else Tally(log[..|log| - 1], f) + f(log[|log| - 1])
  }

  lemma TallyAppend(log: seq<Event>, e: Option<Event>, f: Event -> int)
    ensures Tally(Append(log, e), f) == Tally(log, f) + if e.Some? then f(e.value) else 0
  {
    if e.Some? {
      assert (log + [e.value])[..|log|] == log;
    }
  }

  // ----- slots -----

  function SlotDelta(e: Event): int {
    if e.Acquired? then 1 else if e.Released? then -1 else 0
  }

  function Holds(h: Handler): int { if h.slot == Some(true) && !h.tail.released then 1 else 0 }

  /** Past a successful ProcessPayment and not yet through CloseSession. */
  function OpenSessions(h: Handler): int { if h.pay.paid == Some(true) && h.tail.closed.None? then 1 else 0 }

  /** The semaphore's length, three ways: the channel, the handlers between acquire and release,
      and the log; never above capacity; and a request is shed only at a full semaphore. */
  ghost predicate SlotsOk(env: Env, s: State) {
    && s.inflight == Sum(s.handlers, Holds) == Tally(s.log, SlotDelta)
    && 0 <= s.inflight <= Slots(env)
    && forall i :: 0 <= i < |s.log| && s.log[i].Shed? ==> Tally(s.log[..i], SlotDelta) == Slots(env)
  }

  /** Only the gate and the release touch the semaphore. */
  lemma SlotUntouched(env: Env, s: State, r: nat, h: Handler, h': Handler)
    requires h.pc != AtGate && h.pc != Releasing
    ensures NextShared(env, s, h, h').inflight == s.inflight
    ensures var e := Emitted(r, h, h'); e.Some? ==> SlotDelta(e.value) == 0 && !e.value.Shed?
  {
  }

  lemma SlotFieldsUntouched(env: Env, h: Handler, free: bool, left: int, reply: Reply)
    requires h.pc != AtGate && h.pc != Releasing
    ensures Holds(NextLocals(env, h, free, left, reply)) == Holds(h)
  {
  }

  lemma TurnOnSlots(env: Env, s: State, r: nat, reply: Reply)
    requires r < |s.handlers| && Consistent(s.handlers[r])
    ensures
      var h, s' := s.handlers[r], Turned(env, s, r, reply);
      var e := Emitted(r, h, s'.handlers[r]);
      var delta := if e.Some? then SlotDelta(e.value) else 0;
      && s'.inflight == s.inflight + delta
      && Holds(s'.handlers[r]) == Holds(h) + delta
      && (delta == 1 ==> s.inflight < Slots(env))
      && (e.Some? && e.value.Shed? ==> s.inflight >= Slots(env))
  {
    var h := s.handlers[r];
    if h.pc != AtGate && h.pc != Releasing {
      SlotUntouched(env, s, r, h, TurnedLocals(env, s, r, reply));
      SlotFieldsUntouched(env, h, s.inflight < Slots(env), BalanceAfterDebit(env, s, h), reply);
    }
  }

  lemma {:induction false} SumNonNegative(hs: seq<Handler>)
    ensures Sum(hs, Holds) >= 0
    decreases |hs|
  {
    if hs != [] {
      SumNonNegative(hs[..|hs| - 1]);
    }
  }

  lemma TurnKeepsSlots(env: Env, s: State, r: nat, reply: Reply)
    requires Locals(s) && SlotsOk(env, s) && r < |s.handlers|
    ensures SlotsOk(env, Turned(env, s, r, reply))
  {
    var s' := Turned(env, s, r, reply);
    var e := Emitted(r, s.handlers[r], s'.handlers[r]);
    TurnOnSlots(env, s, r, reply);
    SumUpdate(s.handlers, r, s'.handlers[r], Holds);
    SumNonNegative(s'.handlers);
    TallyAppend(s.log, e, SlotDelta);
    forall i | 0 <= i < |s'.log| && s'.log[i].Shed? ensures Tally(s'.log[..i], SlotDelta) == Slots(env) {
      assert s'.log[..i] == if i < |s.log| then s.log[..i] else s.log;
    }
  }

  lemma ArriveKeepsSlots(env: Env, s: State, req: Request)
    requires SlotsOk(env, s)
    ensures SlotsOk(env, Step(env, s, Arrive(req)))
  {
    SumPush(s.handlers, Fresh(req), Holds);
  }

  lemma StepKeepsSlots(env: Env, s: State, m: Move)
    requires Locals(s) && SlotsOk(env, s)
    ensures SlotsOk(env, Step(env, s, m))
  {
    match m
    case Arrive(req) => ArriveKeepsSlots(env, s, req);
    case Turn(r, reply) => if r < |s.handlers| { TurnKeepsSlots(env, s, r, reply); }
  }

  lemma {:induction false} ExecSlots(env: Env, schedule: seq<Move>)
    ensures SlotsOk(env, Exec(env, schedule))
    decreases |schedule|
  {
    if schedule == [] {
      assert Exec(env, []) == INITIAL;
    } else {
      var n := |schedule| - 1;
      ExecSlots(env, schedule[..n]);
      ExecLocals(env, schedule[..n]);
      StepKeepsSlots(env, Exec(env, schedule[..n]), schedule[n]);
    }
  }

  /** In every reachable state: held slots are counted exactly and bounded by the configured
      number, or by one where that is not positive; sessions open at the daemon never outnumber
      held slots; a request was shed only with exactly that many slots held; and a drained worker
      holds nothing. */
  lemma SemaphoreIsExact(env: Env, schedule: seq<Move>)
    ensures
      var s, capacity := Exec(env, schedule), if env.maxConcurrent >= 1 then env.maxConcurrent else 1;
      && s.inflight == Sum(s.handlers, Holds)
      && Sum(s.handlers, OpenSessions) <= s.inflight <= capacity
      && (forall i :: 0 <= i < |s.log| && s.log[i].Shed? ==> Tally(s.log[..i], SlotDelta) == capacity)
      && ((forall r :: 0 <= r < |s.handlers| ==> s.handlers[r].pc == Done) ==> s.inflight == 0)
  {
    var s := Exec(env, schedule);
    ExecSlots(env, schedule);
    ExecLocals(env, schedule);
    forall r | 0 <= r < |s.handlers| ensures OpenSessions(s.handlers[r]) <= Holds(s.handlers[r]) {
      OpenImpliesHeld(s.handlers[r]);
    }
    SumLe(s.handlers, OpenSessions, Holds);
    if forall r :: 0 <= r < |s.handlers| ==> s.handlers[r].pc == Done {
      forall r | 0 <= r < |s.handlers| ensures Holds(s.handlers[r]) <= Zero(s.handlers[r]) {
        OpenImpliesHeld(s.handlers[r]);
      }
      SumLe(s.handlers, Holds, Zero);
      SumZero(s.handlers);
    }
  }

  function WasShed(h: Handler): int { if h.slot == Some(false) then 1 else 0 }

  lemma TurnOnSheds(env: Env, s: State, r: nat, reply: Reply)
    requires r < |s.handlers| && Consistent(s.handlers[r])
    ensures
      var h, h' := s.handlers[r], TurnedLocals(env, s, r, reply);
      NextShared(env, s, h, h').shed - s.shed == WasShed(h') - WasShed(h)
  {
    var h := s.handlers[r];
    if h.pc != AtGate {
      SlotIsKept(env, h, s.inflight < Slots(env), BalanceAfterDebit(env, s, h), reply);
      ShedIsKept(env, s, h, TurnedLocals(env, s, r, reply));
    }
  }

  lemma SlotIsKept(env: Env, h: Handler, free: bool, left: int, reply: Reply)
    requires h.pc != AtGate
    ensures NextLocals(env, h, free, left, reply).slot == h.slot
  {
  }

  lemma ShedIsKept(env: Env, s: State, h: Handler, h': Handler)
    requires h.pc != AtGate
    ensures NextShared(env, s, h, h').shed == s.shed
  {
  }

  /** Capacity rejections are the requests that got no slot. */
  lemma {:induction false} ShedsAreCounted(env: Env, schedule: seq<Move>)
    ensures var s := Exec(env, schedule); s.shed == Sum(s.handlers, WasShed)
    decreases |schedule|
  {
    if schedule == [] {
      assert Exec(env, []) == INITIAL;
    } else {
      var n := |schedule| - 1;
      ShedsAreCounted(env, schedule[..n]);
      ExecLocals(env, schedule[..n]);
      StepKeepsSheds(env, Exec(env, schedule[..n]), schedule[n]);
    }
  }

  lemma StepKeepsSheds(env: Env, s: State, m: Move)
    requires Locals(s) && s.shed == Sum(s.handlers, WasShed)
    ensures Step(env, s, m).shed == Sum(Step(env, s, m).handlers, WasShed)
  {
    match m
    case Arrive(req) => SumPush(s.handlers, Fresh(req), WasShed);
    case Turn(r, reply) =>
      if r < |s.handlers| {
        var h' := TurnedLocals(env, s, r, reply);
        TurnOnSheds(env, s, r, reply);
        SumUpdate(s.handlers, r, h', WasShed);
        assert Step(env, s, m).handlers == s.handlers[r := h'];
      }
  }

  /** Every number of requests up to the configured one can hold slots at once: as many arrivals
      of any request, each with one turn. */
  lemma {:induction false} SlotsCanBeFilled(env: Env, req: Request, n: nat) returns (schedule: seq<Move>, s: State)
    requires n <= if env.maxConcurrent >= 1 then env.maxConcurrent else 1
    ensures Recorded(env, schedule, s)
    ensures s.inflight == |s.handlers| == n && forall r :: 0 <= r < n ==> Holds(s.handlers[r]) == 1
    decreases n
  {
    if n == 0 {
      schedule, s := [], INITIAL;
      assert Exec(env, []) == INITIAL;
    } else {
      schedule, s := SlotsCanBeFilled(env, req, n - 1);
      schedule, s := AndMove(env, schedule, s, Arrive(req));
      var reply := Reply(true, [], 0, 0, None, NoError);
      schedule, s := AndMove(env, schedule, s, Turn(n - 1, reply));
    }
  }

  lemma AndMove(env: Env, schedule: seq<Move>, s: State, m: Move) returns (longer: seq<Move>, s': State)
    requires Recorded(env, schedule, s)
    ensures Recorded(env, longer, s') && s' == Step(env, s, m)
  {
    assert Look(true);
    longer, s' := schedule + [m], Step(env, s, m);
    assert longer[..|schedule|] == schedule;
  }

  /** At the full number, and not below it, the next request is shed. */
  lemma GateShedsIffFull(env: Env, s: State, r: nat, reply: Reply)
    requires r < |s.handlers| && s.handlers[r].pc == AtGate
    ensures TurnedLocals(env, s, r, reply).slot
            == Some(s.inflight < if env.maxConcurrent >= 1 then env.maxConcurrent else 1)
  {
  }

  lemma OpenImpliesHeld(h: Handler)
    requires Consistent(h)
    ensures OpenSessions(h) <= Holds(h)
    ensures h.pc == Done ==> Holds(h) == 0
  {
  }

  function Zero(h: Handler): int { 0 }

  lemma {:induction false} SumZero(hs: seq<Handler>)
    ensures Sum(hs, Zero) == 0
    decreases |hs|
  {
    if hs != [] {
      SumZero(hs[..|hs| - 1]);
    }
  }

  // ----- one request: its daemon calls, its charge, its metric -----

  function Reports(t: History): nat {
    match t
    case Start => 0
    case Then(before, e) => Reports(before) + if e.Reported? then 1 else 0
  }

  function ChargedUnits(h: Handler): int {
    (if h.pay.debited == Some(true) then h.pay.estimate else 0)
    + (if h.work.reconciled == Some(true) then h.work.actual - h.pay.estimate else 0)
  }

  /** The daemon calls of the body, as the locals record them. */
  function EarlyCalls(r: nat, h: Handler): History {
    var a := AccountOf(h);
    var t1 := If(h.pay.openOk.Some?, Start, Opened(r, h.session, h.pay.openOk == Some(true)));
    var t2 := If(h.pay.paid.Some?, t1, Paid(r, a, h.pay.credit, h.pay.paid == Some(true)));
    If(h.pay.debited.Some?, t2, Debited(r, a, h.pay.estimate, true, h.pay.debited == Some(true), h.pay.balance0))
  }

  function BodyCalls(r: nat, h: Handler): History {
    If(h.work.reconciled.Some?, EarlyCalls(r, h),
       Debited(r, AccountOf(h), h.work.actual - h.pay.estimate, false, h.work.reconciled == Some(true), h.work.balance))
  }

  function AllCalls(r: nat, h: Handler): History {
    If(h.tail.closed.Some?, BodyCalls(r, h), Closed(r, AccountOf(h), h.tail.closed == Some(true)))
  }

  // How each reading of a history passes over an optional event.

  lemma CallsIf()
    ensures forall b, t, e {:trigger Calls(If(b, t, e))} :: Calls(If(b, t, e)) == If(b && IsRpc(e), Calls(t), e)
  {
  }

  lemma ChargedIf()
    ensures forall b, t, e {:trigger Charged(If(b, t, e))} ::
              Charged(If(b, t, e)) == Charged(t) + if b && e.Debited? && e.ok then e.units else 0
  {
  }

  lemma ReportsIf()
    ensures forall b, t, e {:trigger Reports(If(b, t, e))} ::
              Reports(If(b, t, e)) == Reports(t) + if b && e.Reported? then 1 else 0
  {
  }

  lemma ListIf()
    ensures forall b, t, e {:trigger List(If(b, t, e))} :: List(If(b, t, e)) == List(t) + if b then [e] else []
  {
  }

  lemma CallsOfEarly(r: nat, h: Handler)
    ensures Calls(EarlyTrace(r, h)) == EarlyCalls(r, h)
  {
    CallsIf();
  }

  lemma CallsOfBody(r: nat, h: Handler)
    ensures Calls(BodyTrace(r, h)) == BodyCalls(r, h)
  {
    CallsOfEarly(r, h);
    CallsIf();
  }

  lemma CallsOfTrace(r: nat, h: Handler)
    ensures Calls(Expected(r, h)) == AllCalls(r, h)
  {
    CallsOfBody(r, h);
    CallsIf();
  }

  lemma ChargedOfBody(r: nat, h: Handler)
    ensures Charged(BodyTrace(r, h)) == ChargedUnits(h)
  {
    ChargedIf();
  }

  lemma ChargedOfTrace(r: nat, h: Handler)
    ensures Charged(Expected(r, h)) == ChargedUnits(h)
  {
    ChargedOfBody(r, h);
    ChargedIf();
  }

  lemma ReportsOfBody(r: nat, h: Handler)
    ensures Reports(BodyTrace(r, h)) == 0
  {
    ReportsIf();
  }

  lemma ReportsOfTrace(r: nat, h: Handler)
    ensures Reports(Expected(r, h)) == if h.tail.reported.Some? then 1 else 0
  {
    ReportsOfBody(r, h);
    ReportsIf();
  }

  /** The daemon calls one request can make: a prefix of OpenSession, ProcessPayment, the upfront
      DebitBalance and at most one reconciling DebitBalance, each after the success of the one
      before, and then at most one CloseSession, attempted only if ProcessPayment succeeded. */
  predicate LegalCalls(t: seq<Event>) {
    && |t| <= 5
    && (|t| > 0 ==> t[0].Opened?)
    && (|t| > 1 ==> t[0].ok && t[1].Paid?)
    && (|t| > 2 ==> t[1].ok && (t[2].Closed? || (t[2].Debited? && t[2].upfront)))
    && (|t| > 3 ==> t[2].Debited? && (t[3].Closed? || (t[2].ok && t[3].Debited? && !t[3].upfront)))
    && (|t| > 4 ==> t[3].Debited? && t[4].Closed?)
    && forall i :: 0 <= i < |t| && t[i].Closed? ==> i == |t| - 1
  }

  /** For every pattern of failures: the calls of a request are legal at all times, and once it
      has finished its last call is the one CloseSession exactly when ProcessPayment succeeded. */
  lemma CallsFollowProtocol(env: Env, schedule: seq<Move>, r: nat)
    requires r < |Exec(env, schedule).handlers|
    ensures
      var s := Exec(env, schedule);
      var calls := List(Calls(Trace(s.log, r)));
      && LegalCalls(calls)
      && (s.handlers[r].pc == Done ==>
            ((|calls| > 1 && calls[1].ok) <==> (calls != [] && calls[|calls| - 1].Closed?)))
  {
    ExecLocals(env, schedule);
    var h := Exec(env, schedule).handlers[r];
    CallsOfTrace(r, h);
    ConsistentCallsAreLegal(r, h);
  }

  lemma ConsistentCallsAreLegal(r: nat, h: Handler)
    requires Consistent(h)
    ensures
      var calls := List(AllCalls(r, h));
      && LegalCalls(calls)
      && (h.pc == Done ==> ((|calls| > 1 && calls[1].ok) <==> (calls != [] && calls[|calls| - 1].Closed?)))
  {
    ListIf();
  }

  /** What a finished request was charged, over all its successful debits: nothing without an
      upfront debit; the actual units when Serve succeeded above the clamped estimate and the
      reconcile went through; the clamped estimate otherwise. Charges stay within int64. */
  lemma FinishedCharge(env: Env, schedule: seq<Move>, r: nat)
    requires r < |Exec(env, schedule).handlers| && Exec(env, schedule).handlers[r].pc == Done
    ensures
      var s := Exec(env, schedule);
      var h := s.handlers[r];
      var charge := Charged(Trace(s.log, r));
      && charge == (if h.pay.debited != Some(true) then 0
                    else if h.work.served == Some(true) && h.work.actual > h.pay.estimate && h.work.reconciled == Some(true) then h.work.actual
                    else h.pay.estimate)
      && 0 <= charge <= MAX_INT64
      && (h.work.reconciled.Some? <==> h.work.served == Some(true) && h.work.actual > h.pay.estimate)
  {
    ExecLocals(env, schedule);
    ChargedOfTrace(r, Exec(env, schedule).handlers[r]);
  }

  /** Every debit ever asked of the daemon is a non-negative int64: the estimate is clamped and
      the subtraction behind the reconcile delta cannot overflow. */
  ghost predicate DebitsInRange(log: seq<Event>) {
    forall i :: 0 <= i < |log| && log[i].Debited? ==> 0 <= log[i].units <= MAX_INT64
  }

  lemma {:induction false} DebitsStayInRange(env: Env, schedule: seq<Move>)
    ensures DebitsInRange(Exec(env, schedule).log)
    decreases |schedule|
  {
    if schedule != [] {
      var n := |schedule| - 1;
      var s := Exec(env, schedule[..n]);
      DebitsStayInRange(env, schedule[..n]);
      ExecLocals(env, schedule[..n]);
      match schedule[n]
      case Arrive(_) =>
      case Turn(r, reply) => if r < |s.handlers| { TurnDebitsInRange(env, s, r, reply); }
    }
  }

  lemma TurnDebitsInRange(env: Env, s: State, r: nat, reply: Reply)
    requires DebitsInRange(s.log) && r < |s.handlers| && Consistent(s.handlers[r])
    ensures DebitsInRange(Turned(env, s, r, reply).log)
  {
    var h := s.handlers[r];
    DebitInRange(env, h, r, s.inflight < Slots(env), BalanceAfterDebit(env, s, h), reply);
  }

  lemma DebitInRange(env: Env, h: Handler, r: nat, free: bool, left: int, reply: Reply)
    requires Consistent(h)
    ensures var e := Emitted(r, h, NextLocals(env, h, free, left, reply));
            e.Some? && e.value.Debited? ==> 0 <= e.value.units <= MAX_INT64
  {
    if h.pc == Debiting || h.pc == Reconciling {
      assert h.pay.estimate >= 0;
    }
  }
}
