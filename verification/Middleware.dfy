/** The paid-request handler as the code writes it: one goroutine running straight-line code
    with early returns and deferred functions, over mutable shared state, with every other
    goroutine free to run between its steps. Its contract says that what it does is a sequence
    of turns of the concurrent machine, so everything proved about schedules holds of it. */
module Middleware {
  import opened Go
  import opened Ledger
  import opened PaidRequest
  import opened PaidRequestTrace
  import opened PaidRequestLedger
  import opened PaidRequestMetrics
  import opened Scripted
  import Codecs
  import Catalog

  /** The response writer's wrapper: the first status written is the one that counts. */
  class StatusWriter {
    var status: nat
    var wrote: bool

    constructor ()
      ensures status == 0 && !wrote
    {
      status, wrote := 0, false;
    }

    function First(): Option<nat>
      reads this
    {
      if wrote then Some(status) else None
    }

    /** A body written before any header goes out as a 200. */
    method Write()
      modifies this
      ensures First() == if old(wrote) then old(First()) else Some(200)
    {
      if !wrote {
        status := 200;
        wrote := true;
      }
    }

    method WriteHeader(code: nat)
      modifies this
      ensures First() == if old(wrote) then old(First()) else Some(code)
    {
      if !wrote {
        status := code;
        wrote := true;
      }
    }
  }

  function Answer(ok: bool): Reply { Reply(ok, [], 0, 0, None, NoError) }

  /** All answers so far are the script's; guarded in the same way. */
  ghost predicate Follows(env: Env, h: Handler, script: Script) {
    forall b :: Look(b) ==> Answered(env, h, script)
  }

  lemma ExecSnoc(env: Env, schedule: seq<Move>, m: Move)
    ensures Exec(env, schedule + [m]) == Step(env, Exec(env, schedule), m)
  {
    assert (schedule + [m])[..|schedule|] == schedule;
  }

  lemma OtherKeepsLocals(env: Env, s: State, m: Move, r: nat)
    requires r < |s.handlers| && !(m.Turn? && m.r == r)
    ensures r < |Step(env, s, m).handlers| && Step(env, s, m).handlers[r] == s.handlers[r]
  {
    match m
    case Arrive(_) =>
    case Turn(q, reply) =>
      if q < |s.handlers| {
        assert Turned(env, s, q, reply).handlers == s.handlers[q := TurnedLocals(env, s, q, reply)];
      }
  }

  lemma OneMoreKeepsLocals(env: Env, schedule: seq<Move>, m: Move, longer: seq<Move>, r: nat)
    requires r < |Exec(env, schedule).handlers| && !(m.Turn? && m.r == r) && longer == schedule + [m]
    ensures r < |Exec(env, longer).handlers| && Exec(env, longer).handlers[r] == Exec(env, schedule).handlers[r]
  {
    ExecSnoc(env, schedule, m);
    OtherKeepsLocals(env, Exec(env, schedule), m, r);
  }

  /** Moves of other requests leave the locals of r alone. */
  lemma {:induction false} OthersKeepLocals(env: Env, before: seq<Move>, others: seq<Move>, r: nat)
    requires r < |Exec(env, before).handlers| && TurnsOf(others, r) == 0
    ensures r < |Exec(env, before + others).handlers|
    ensures Exec(env, before + others).handlers[r] == Exec(env, before).handlers[r]
    decreases |others|
  {
    if others == [] {
      assert before + others == before;
    } else {
      var n := |others| - 1;
      OthersKeepLocals(env, before, others[..n], r);
      assert before + others == (before + others[..n]) + [others[n]];
      OneMoreKeepsLocals(env, before + others[..n], others[n], before + others, r);
    }
  }

  /** The calls that one turn makes. */
  function CallsOfTurn(r: nat, h: Handler, h': Handler): seq<Call> {
    var e := Emitted(r, h, h');
    if e.Some? then CallFor(e.value) else []
  }

  /** What the later steps rely on: the request, its label and its account stay put. */
  ghost predicate SameRequest(h: Handler, h0: Handler) {
    && h.req == h0.req && h.modelLabel == h0.modelLabel
    && h.slot == h0.slot && h.pay.paid == h0.pay.paid && AccountOf(h) == AccountOf(h0)
  }

  /** The handler has decided on this refusal and has yet to count it, if it has a reason, and to
      write it. */
  ghost predicate Refuses(h: Handler, refusal: Refusal) {
    h.tail.refusal == Some(refusal) && h.pc == if refusal.reason.Some? then Counting else Refusing
  }

  /** The machine went from s to s' by a turn of r; guarded like the others. */
  ghost predicate Stepped(env: Env, s: State, s': State, r: nat, reply: Reply)
    requires r < |s.handlers|
  {
    forall b :: Look(b) ==> s' == Turned(env, s, r, reply)
  }

  /** The part of the state that the worker keeps in memory, but for the field a step is about. */
  ghost predicate SameCounters(s: State, s': State) {
    s'.workUnits == s.workUnits && s'.requests == s.requests && s'.rejections == s.rejections
  }

  ghost predicate SameGate(s: State, s': State) { s'.inflight == s.inflight && s'.shed == s.shed }

  /** The calls that the daemon has had after a turn. */
  lemma CallsStep(env: Env, s: State, s': State, r: nat, reply: Reply)
    requires r < |s.handlers| && Stepped(env, s, s', r, reply)
    ensures Asked(s'.log) == Asked(s.log) + CallsOfTurn(r, s.handlers[r], TurnedLocals(env, s, r, reply))
  {
    assert Look(true);
    AskedAppend(s.log, Emitted(r, s.handlers[r], TurnedLocals(env, s, r, reply)));
  }

  /** What a turn does to the ledger at a debit. */
  lemma DebitStep(env: Env, s: State, s': State, r: nat, reply: Reply, account: Account, units: int)
    requires r < |s.handlers| && Stepped(env, s, s', r, reply)
    requires s.handlers[r].pc == Debiting || s.handlers[r].pc == Reconciling
    requires AccountOf(s.handlers[r]) == account && DebitUnits(s.handlers[r]) == units
    ensures SameCounters(s, s') && SameGate(s, s') && r < |s'.handlers|
    ensures s'.balances == if reply.ok then Adjust(s.balances, account, -(env.rate * units)) else s.balances
    ensures s'.handlers[r] == NextLocals(env, s.handlers[r], s.inflight < Slots(env), Balance(s.balances, account) - env.rate * units, reply)
  {
    assert Look(true);
  }

  lemma DebitCalls(env: Env, s: State, s': State, r: nat, reply: Reply, account: Account, units: int)
    requires r < |s.handlers| && Stepped(env, s, s', r, reply)
    requires s.handlers[r].pc == Debiting || s.handlers[r].pc == Reconciling
    requires AccountOf(s.handlers[r]) == account && DebitUnits(s.handlers[r]) == units
    ensures Asked(s'.log) == Asked(s.log) + [DebitCall(account, units)]
  {
    CallsStep(env, s, s', r, reply);
  }

  /** The reconciling debit, all of it. */
  lemma ReconcileStep(env: Env, s: State, s': State, r: nat, reply: Reply, account: Account, units: int)
    requires r < |s.handlers| && Stepped(env, s, s', r, reply) && s.handlers[r].pc == Reconciling
    requires AccountOf(s.handlers[r]) == account && DebitUnits(s.handlers[r]) == units
    ensures SameCounters(s, s') && SameGate(s, s') && r < |s'.handlers|
    ensures s'.balances == if reply.ok then Adjust(s.balances, account, -(env.rate * units)) else s.balances
    ensures Asked(s'.log) == Asked(s.log) + [DebitCall(account, units)]
    ensures
      var h, h' := s.handlers[r], s'.handlers[r];
      SameRequest(h', h) && h'.tail.status == h.tail.status && h'.pc == Closing && h'.work.reconciled == Some(reply.ok)
  {
    DebitStep(env, s, s', r, reply, account, units);
    DebitCalls(env, s, s', r, reply, account, units);
  }

  /** What it does at OpenSession. */
  lemma OpenStep(env: Env, s: State, s': State, r: nat, reply: Reply)
    requires r < |s.handlers| && Stepped(env, s, s', r, reply) && s.handlers[r].pc == Opening
    ensures SameCounters(s, s') && SameGate(s, s') && s'.balances == s.balances && r < |s'.handlers|
    ensures
      var h, h' := s.handlers[r], s'.handlers[r];
      && SameRequest(h', h) && h'.tail.status == h.tail.status
      && (if reply.ok then h'.pc == Paying else Refuses(h', Refusal(502, None)))
      && Asked(s'.log)
         == Asked(s.log)
            + [OpenCall(h.session.workID, h.session.capability, h.session.offering, h.session.price, h.session.workUnit)]
  {
    assert Look(true);
    CallsStep(env, s, s', r, reply);
  }

  /** And at a payment. */
  lemma PayStep(env: Env, s: State, s': State, r: nat, reply: Reply)
    requires r < |s.handlers| && Stepped(env, s, s', r, reply) && s.handlers[r].pc == Paying
    ensures SameCounters(s, s') && SameGate(s, s') && r < |s'.handlers|
    ensures
      var h, h' := s.handlers[r], s'.handlers[r];
      && s'.balances == (if reply.ok then Adjust(s.balances, Account(reply.sender, h.session.workID), reply.credit) else s.balances)
      && Asked(s'.log) == Asked(s.log) + [ProcessCall(h.session.workID)]
      && h'.req == h.req && h'.modelLabel == h.modelLabel && h'.slot == h.slot && h'.pay.paid == Some(reply.ok)
      && (reply.ok ==> h'.pc == Estimating && AccountOf(h') == Account(reply.sender, h.session.workID))
      && (!reply.ok ==> Refuses(h', Refusal(402, Some(ProcessPaymentFailed))))
  {
    assert Look(true);
    AskedAppend(s.log, Emitted(r, s.handlers[r], TurnedLocals(env, s, r, reply)));
  }

  /** What a turn does at the work-units metric. */
  lemma MeterStep(env: Env, s: State, s': State, r: nat, reply: Reply)
    requires r < |s.handlers| && Stepped(env, s, s', r, reply) && s.handlers[r].pc == Metering
    ensures SameGate(s, s') && r < |s'.handlers|
    ensures
      var h, h' := s.handlers[r], s'.handlers[r];
      && s'.requests == s.requests && s'.rejections == s.rejections && s'.balances == s.balances
      && s'.workUnits == (if h.work.actual > 0
                          then s.workUnits[LabelOf(h) := Units(s.workUnits, LabelOf(h)) + h.work.actual] else s.workUnits)
      && Asked(s'.log) == Asked(s.log)
      && SameRequest(h', h) && h'.pay.estimate == h.pay.estimate && h'.work.actual == h.work.actual
      && h'.tail.status == h.tail.status && h'.pc == if h.work.actual > h.pay.estimate then Reconciling else Closing
  {
    assert Look(true);
    AskedAppend(s.log, Emitted(r, s.handlers[r], TurnedLocals(env, s, r, reply)));
  }

  /** At the request metric. */
  lemma ReportStep(env: Env, s: State, s': State, r: nat, reply: Reply)
    requires r < |s.handlers| && Stepped(env, s, s', r, reply)
    requires s.handlers[r].pc == Shedding || s.handlers[r].pc == Reporting
    ensures SameGate(s, s') && r < |s'.handlers|
    ensures
      var h, h' := s.handlers[r], s'.handlers[r];
      var outcome := if h.pc == Shedding then Outcome5xx else ClassifyOutcome(reply.ctx, StatusOf(h));
      && s'.workUnits == s.workUnits && s'.rejections == s.rejections && s'.balances == s.balances
      && s'.requests == s.requests + multiset{(LabelOf(h), outcome)}
      && Asked(s'.log) == Asked(s.log)
      && h'.req == h.req && h'.tail.status == h.tail.status && h'.pc == if h.pc == Shedding then Done else Releasing
  {
    assert Look(true);
    AskedAppend(s.log, Emitted(r, s.handlers[r], TurnedLocals(env, s, r, reply)));
  }

  /** And at the gate. */
  lemma GateStep(env: Env, s: State, s': State, r: nat, reply: Reply)
    requires r < |s.handlers| && Stepped(env, s, s', r, reply) && s.handlers[r].pc == AtGate
    ensures SameCounters(s, s') && r < |s'.handlers|
    ensures
      var h, h', ok := s.handlers[r], s'.handlers[r], s.inflight < Slots(env);
      && s'.balances == s.balances && Asked(s'.log) == Asked(s.log)
      && s'.inflight == (if ok then s.inflight + 1 else s.inflight) && s'.shed == (if ok then s.shed else s.shed + 1)
      && h'.req == h.req && h'.modelLabel == h.modelLabel && h'.pay.paid == h.pay.paid && h'.slot == Some(ok)
      && if ok then h'.pc == Examining else Refuses(h', Refusal(503, None))
  {
    assert Look(true);
    AskedAppend(s.log, Emitted(r, s.handlers[r], TurnedLocals(env, s, r, reply)));
  }

  /** What it does when Serve returns. */
  lemma ServeStep(env: Env, s: State, s': State, r: nat, reply: Reply)
    requires r < |s.handlers| && Stepped(env, s, s', r, reply) && s.handlers[r].pc == Serving
    ensures SameCounters(s, s') && SameGate(s, s') && s'.balances == s.balances && r < |s'.handlers|
    ensures
      var h, h' := s.handlers[r], s'.handlers[r];
      && SameRequest(h', h) && h'.pay.estimate == h.pay.estimate && h'.work.actual == reply.units
      && h'.tail.status == reply.status && h'.pc == (if reply.ok then Metering else Closing)
      && Asked(s'.log) == Asked(s.log)
  {
    assert Look(true);
    CallsStep(env, s, s', r, reply);
  }

  /** What it does at CloseSession. */
  lemma CloseStep(env: Env, s: State, s': State, r: nat, reply: Reply)
    requires r < |s.handlers| && Stepped(env, s, s', r, reply) && s.handlers[r].pc == Closing
    ensures SameCounters(s, s') && SameGate(s, s') && s'.balances == s.balances && r < |s'.handlers|
    ensures
      var h, h' := s.handlers[r], s'.handlers[r];
      && SameRequest(h', h) && h'.tail.status == h.tail.status && h'.pc == Reporting && h'.tail.closed == Some(reply.ok)
      && Asked(s'.log) == Asked(s.log) + [CloseCall(AccountOf(h))]
  {
    assert Look(true);
    CallsStep(env, s, s', r, reply);
  }

  /** What it does between the calls: nothing but to the handler's own locals. */
  ghost predicate Quiet(s: State, s': State) {
    SameCounters(s, s') && SameGate(s, s') && s'.balances == s.balances && Asked(s'.log) == Asked(s.log)
  }

  lemma ExamineStep(env: Env, s: State, s': State, r: nat, reply: Reply)
    requires r < |s.handlers| && Stepped(env, s, s', r, reply) && s.handlers[r].pc == Examining
    ensures Quiet(s, s') && r < |s'.handlers|
    ensures
      var h, h' := s.handlers[r], s'.handlers[r];
      && h'.req == h.req && h'.slot == h.slot && h'.pay.paid == h.pay.paid
      && match Examine(env, h.req)
         case Refused(refusal, modelLabel) => Refuses(h', refusal) && h'.modelLabel == modelLabel
         case Ready(model, session) => h'.pc == Opening && h'.session == session && h'.modelLabel == model
  {
    assert Look(true);
    CallsStep(env, s, s', r, reply);
  }

  lemma EstimateStep(env: Env, s: State, s': State, r: nat, reply: Reply)
    requires r < |s.handlers| && Stepped(env, s, s', r, reply) && s.handlers[r].pc == Estimating
    ensures Quiet(s, s') && r < |s'.handlers|
    ensures
      var h, h' := s.handlers[r], s'.handlers[r];
      && SameRequest(h', h)
      && if reply.ok then h'.pc == Debiting && h'.pay.estimate == Clamp(reply.units) else Refuses(h', Refusal(400, None))
  {
    assert Look(true);
    CallsStep(env, s, s', r, reply);
  }

  lemma EnterStep(env: Env, s: State, s': State, r: nat, reply: Reply)
    requires r < |s.handlers| && Stepped(env, s, s', r, reply) && s.handlers[r].pc == Entering
    ensures Quiet(s, s') && r < |s'.handlers|
    ensures
      var h, h' := s.handlers[r], s'.handlers[r];
      SameRequest(h', h) && h'.pay.estimate == h.pay.estimate && h'.pc == Serving
  {
    assert Look(true);
    CallsStep(env, s, s', r, reply);
  }

  lemma RefuseStep(env: Env, s: State, s': State, r: nat, reply: Reply)
    requires r < |s.handlers| && Stepped(env, s, s', r, reply) && s.handlers[r].pc == Refusing
    ensures Quiet(s, s') && r < |s'.handlers|
    ensures
      var h, h' := s.handlers[r], s'.handlers[r];
      SameRequest(h', h) && h'.pc == Unwind(h) && h'.tail.status == Some(RefusalOf(h).status)
  {
    assert Look(true);
    CallsStep(env, s, s', r, reply);
  }

  lemma CountStep(env: Env, s: State, s': State, r: nat, reply: Reply)
    requires r < |s.handlers| && Stepped(env, s, s', r, reply) && s.handlers[r].pc == Counting
    requires RefusalOf(s.handlers[r]).reason.Some?
    ensures SameGate(s, s') && r < |s'.handlers| && s'.handlers[r] == s.handlers[r].(pc := Refusing)
    ensures s'.workUnits == s.workUnits && s'.requests == s.requests && s'.balances == s.balances
    ensures Asked(s'.log) == Asked(s.log)
    ensures s'.rejections == s.rejections + multiset{RefusalOf(s.handlers[r]).reason.value}
  {
    assert Look(true);
    CallsStep(env, s, s', r, reply);
  }

  lemma ReleaseStep(env: Env, s: State, s': State, r: nat, reply: Reply)
    requires r < |s.handlers| && Stepped(env, s, s', r, reply) && s.handlers[r].pc == Releasing
    ensures SameCounters(s, s') && s'.shed == s.shed && s'.balances == s.balances && Asked(s'.log) == Asked(s.log)
    ensures s'.inflight == s.inflight - 1 && r < |s'.handlers|
    ensures
      var h, h' := s.handlers[r], s'.handlers[r];
      h'.req == h.req && h'.tail.status == h.tail.status && h'.pc == Done
  {
    assert Look(true);
    CallsStep(env, s, s', r, reply);
  }

  class Worker {
    const env: Env
    const payee: Fake
    var inflight: int
    var workUnits: map<Label, int>
    var requests: multiset<(Label, Outcome)>
    var rejections: multiset<Reason>
    var shed: nat
    /** Every move made so far, by whichever goroutine, and the machine's state after them. */
    ghost var history: seq<Move>
    ghost var machine: State

    constructor (env: Env, payee: Fake)
      requires payee.balances == map[] && payee.calls == [] && payee.debitWeiPerWorkUnit == env.rate
      ensures Valid() && history == [] && machine == INITIAL && this.env == env && this.payee == payee
    {
      this.env, this.payee := env, payee;
      inflight, workUnits, requests, rejections, shed := 0, map[], multiset{}, multiset{}, 0;
      history, machine := [], INITIAL;
      new;
      assert Exec(env, []) == INITIAL;
    }

    /** The shared memory is the machine's shared state after the history. */
    ghost predicate Valid()
      reads this, payee
    {
      && Recorded(env, history, machine)
      && machine.inflight == inflight
      && machine.balances == payee.balances
      && Asked(machine.log) == payee.calls
      && machine.workUnits == workUnits
      && machine.requests == requests
      && machine.rejections == rejections
      && machine.shed == shed
      && payee.debitWeiPerWorkUnit == env.rate
    }

    /** Request r has these locals, and has had the script's answers so far. */
    ghost predicate Runs(r: nat, h: Handler, script: Script)
      reads this
    {
      r < |machine.handlers| && machine.handlers[r] == h && Follows(env, h, script)
    }

    /** Any other goroutines run for any number of steps. The body may do nothing, since zero
        steps are allowed; a caller knows only the contract, so it must cope with them all. */
    method Interfere(ghost r: nat)
      requires Valid() && r < |machine.handlers|
      modifies this, payee
      ensures Valid() && old(history) <= history
      ensures r < |machine.handlers| && machine.handlers[r] == old(machine.handlers[r])
    {
    }

    /** Record that the real step just taken is a turn of r, with an answer from the script. */
    ghost method Record(r: nat, reply: Reply, script: Script)
      requires r < |machine.handlers| && Recorded(env, history, machine)
      requires Follows(env, machine.handlers[r], script) && Conforms(machine.handlers[r].pc, reply, script)
      modifies this`history, this`machine
      ensures history == old(history) + [Turn(r, reply)]
      ensures Stepped(env, old(machine), machine, r, reply)
      ensures Recorded(env, history, machine)
      ensures r < |machine.handlers| && Follows(env, machine.handlers[r], script)
    {
      assert Look(true);
      var h := machine.handlers[r];
      ExecLocals(env, history);
      ExecSessions(env, history);
      TurnStaysAnswered(env, h, machine.inflight < Slots(env), BalanceAfterDebit(env, machine, h), reply, script);
      ExecSnoc(env, history, Turn(r, reply));
      history, machine := history + [Turn(r, reply)], Turned(env, machine, r, reply);
    }

    /** Steps 1 to 5 up to OpenSession, with the code's early returns. */
    method Ingest(req: Request) returns (intake: Intake)
      ensures intake == Examine(env, req)
    {
      if !req.bodyOk {
        return Refused(Refusal(400, None), UNSET);
      }
      if req.header.Missing? {
        return Refused(Refusal(402, Some(HeaderMissing)), UNSET);
      }
      if req.header.NotBase64? {
        return Refused(Refusal(402, Some(HeaderInvalid)), UNSET);
      }
      if req.model.None? {
        return Refused(Refusal(400, None), UNSET);
      }
      var model := req.model.value;
      var route := Catalog.Lookup(env.config, req.capability, model);
      if route.None? {
        return Refused(Refusal(404, None), model);
      }
      var workID := DeriveWorkID(env.hash, req.header.blob);
      var price := Codecs.ParseDecimal(route.value.price);
      if price.None? {
        return Refused(Refusal(500, None), model);
      }
      return Ready(model, Session(workID, route.value.capability, route.value.model, price.value, route.value.workUnit));
    }

    method TryAcquire(ghost r: nat, ghost h: Handler, ghost script: Script) returns (ghost h': Handler, ok: bool)
      requires Valid() && Runs(r, h, script) && h.pc == AtGate
      modifies this, payee
      ensures Valid() && old(history) <= history
      ensures Runs(r, h', script)
      ensures h'.req == h.req && h'.modelLabel == h.modelLabel && h'.pay.paid == h.pay.paid && h'.slot == Some(ok)
      ensures if ok then h'.pc == Examining else Refuses(h', Refusal(503, None))
    {
      Interfere(r);
      ghost var before := machine;
      ok := inflight < Slots(env);
      if ok {
        inflight := inflight + 1;
      } else {
        shed := shed + 1;
      }
      Record(r, Answer(true), script);
      GateStep(env, before, machine, r, Answer(true));
      h' := machine.handlers[r];
    }

    /** A refusal with a reason is counted before it is written. */
    method CountRejection(ghost r: nat, ghost h: Handler, reason: Reason, ghost script: Script) returns (ghost h': Handler)
      requires Valid() && Runs(r, h, script) && h.pc == Counting && RefusalOf(h).reason == Some(reason)
      modifies this, payee
      ensures Valid() && old(history) <= history
      ensures Runs(r, h', script) && h' == h.(pc := Refusing)
    {
      Interfere(r);
      ghost var before := machine;
      rejections := rejections + multiset{reason};
      Record(r, Answer(true), script);
      CountStep(env, before, machine, r, Answer(true));
      h' := machine.handlers[r];
    }

    method WriteStatus(ghost r: nat, ghost h: Handler, status: nat, sw: StatusWriter, ghost script: Script) returns (ghost h': Handler)
      requires Valid() && Runs(r, h, script) && h.pc == Refusing && RefusalOf(h).status == status && !sw.wrote
      modifies this, payee, sw
      ensures Valid() && old(history) <= history
      ensures Runs(r, h', script)
      ensures SameRequest(h', h) && h'.pc == Unwind(h) && h'.tail.status == sw.First() == Some(status)
    {
      Interfere(r);
      ghost var before := machine;
      sw.WriteHeader(status);
      Record(r, Answer(true), script);
      RefuseStep(env, before, machine, r, Answer(true));
      h' := machine.handlers[r];
    }

    /** Count the rejection, if it is one, then write the error. */
    method WriteError(ghost r: nat, ghost h: Handler, refusal: Refusal, sw: StatusWriter, ghost script: Script) returns (ghost h': Handler)
      requires Valid() && Runs(r, h, script) && Refuses(h, refusal) && !sw.wrote
      modifies this, payee, sw
      ensures Valid() && old(history) <= history
      ensures Runs(r, h', script)
      ensures SameRequest(h', h) && h'.pc == Unwind(h) && h'.tail.status == sw.First() == Some(refusal.status)
    {
      h' := h;
      if refusal.reason.Some? {
        h' := CountRejection(r, h', refusal.reason.value, script);
      }
      h' := WriteStatus(r, h', refusal.status, sw, script);
    }

    method OpenSession(ghost r: nat, ghost h: Handler, session: Session, script: Script) returns (ghost h': Handler, ok: bool)
      requires Valid() && Runs(r, h, script) && h.pc == Opening && h.session == session
      modifies this, payee
      ensures Valid() && old(history) <= history && ok == script.openOk
      ensures Runs(r, h', script)
      ensures SameRequest(h', h) && h'.tail.status == h.tail.status
      ensures ok ==> h'.pc == Paying
      ensures !ok ==> Refuses(h', Refusal(502, None))
    {
      Interfere(r);
      ghost var before := machine;
      payee.openSessionError := !script.openOk;
      ok := payee.OpenSession(session.workID, session.capability, session.offering, session.price, session.workUnit);
      Record(r, Answer(ok), script);
      OpenStep(env, before, machine, r, Answer(ok));
      h' := machine.handlers[r];
    }

    method ProcessPayment(ghost r: nat, ghost h: Handler, workID: string, script: Script)
      returns (ghost h': Handler, ok: bool, sender: Bytes)
      requires Valid() && Runs(r, h, script) && h.pc == Paying && h.session.workID == workID
      modifies this, payee
      ensures Valid() && old(history) <= history && ok == script.payOk && sender == script.sender
      ensures Runs(r, h', script)
      ensures h'.req == h.req && h'.modelLabel == h.modelLabel && h'.slot == h.slot && h'.pay.paid == Some(ok)
      ensures ok ==> h'.pc == Estimating && AccountOf(h') == Account(sender, workID)
      ensures !ok ==> Refuses(h', Refusal(402, Some(ProcessPaymentFailed)))
    {
      Interfere(r);
      ghost var before := machine;
      payee.processPaymentError := !script.payOk;
      payee.senderAddress := script.sender;
      payee.creditPerCall := script.credit;
      var credited: int;
      ok, sender, credited := payee.ProcessPayment(workID);
      Record(r, Reply(ok, sender, credited, 0, None, NoError), script);
      PayStep(env, before, machine, r, Reply(ok, sender, credited, 0, None, NoError));
      h' := machine.handlers[r];
    }

    method EstimateWorkUnits(ghost r: nat, ghost h: Handler, script: Script) returns (ghost h': Handler, ok: bool, estimate: int64)
      requires Valid() && Runs(r, h, script) && h.pc == Estimating
      modifies this, payee
      ensures Valid() && old(history) <= history && ok == script.estimate.Some?
      ensures Runs(r, h', script)
      ensures SameRequest(h', h)
      ensures ok ==> h'.pc == Debiting && h'.pay.estimate == estimate
      ensures !ok ==> Refuses(h', Refusal(400, None))
      ensures ok ==> estimate == if script.estimate.value < 0 then 0 else script.estimate.value
    {
      Interfere(r);
      ghost var before := machine;
      ok := script.estimate.Some?;
      estimate := 0;
      if ok {
        estimate := script.estimate.value;
      }
      ghost var asked := estimate;
      if estimate < 0 {
        estimate := 0;
      }
      Record(r, Reply(ok, [], 0, asked, None, NoError), script);
      EstimateStep(env, before, machine, r, Reply(ok, [], 0, asked, None, NoError));
      h' := machine.handlers[r];
    }

    method DebitUpfront(ghost r: nat, ghost h: Handler, sender: Bytes, workID: string, estimate: int64, script: Script)
      returns (ghost h': Handler, ok: bool, balance: int)
      requires Valid() && Runs(r, h, script) && h.pc == Debiting && h.pay.estimate == estimate && AccountOf(h) == Account(sender, workID)
      modifies this, payee
      ensures Valid() && old(history) <= history && ok == script.debitOk
      ensures Runs(r, h', script)
      ensures SameRequest(h', h) && h'.pay.estimate == estimate
      ensures !ok ==> Refuses(h', Refusal(502, Some(DebitError)))
      ensures ok && balance < 0 ==> Refuses(h', Refusal(402, Some(InsufficientBalance)))
      ensures ok && balance >= 0 ==> h'.pc == Entering
    {
      Interfere(r);
      payee.debitBalanceError := !script.debitOk;
      ghost var before := machine;
      ok, balance := payee.DebitBalance(sender, workID, estimate);
      Record(r, Answer(ok), script);
      DebitStep(env, before, machine, r, Answer(ok), Account(sender, workID), estimate);
      DebitCalls(env, before, machine, r, Answer(ok), Account(sender, workID), estimate);
      h' := machine.handlers[r];
    }

    /** The call into the module begins. */
    method Enter(ghost r: nat, ghost h: Handler, ghost script: Script) returns (ghost h': Handler)
      requires Valid() && Runs(r, h, script) && h.pc == Entering
      modifies this, payee
      ensures Valid() && old(history) <= history
      ensures Runs(r, h', script) && SameRequest(h', h) && h'.pay.estimate == h.pay.estimate && h'.pc == Serving
    {
      Interfere(r);
      ghost var before := machine;
      Record(r, Answer(true), script);
      EnterStep(env, before, machine, r, Answer(true));
      h' := machine.handlers[r];
    }

    /** Let the world go on, and come back with the module's result. */
    method Serve(ghost r: nat, ghost h: Handler, sw: StatusWriter, script: Script) returns (ghost h': Handler, ok: bool, actual: int64)
      requires Valid() && Runs(r, h, script) && h.pc == Serving && !sw.wrote
      modifies this, payee, sw
      ensures Valid() && old(history) <= history && ok == script.serveOk && actual == script.actual
      ensures sw.First() == script.status
      ensures Runs(r, h', script)
      ensures SameRequest(h', h) && h'.pay.estimate == h.pay.estimate && h'.work.actual == actual && h'.tail.status == script.status
      ensures h'.pc == if ok then Metering else Closing
    {
      Interfere(r);
      ghost var before := machine;
      ok, actual := script.serveOk, script.actual;
      if script.status.Some? {
        sw.WriteHeader(script.status.value);
      }
      Record(r, Reply(ok, [], 0, actual, script.status, NoError), script);
      ServeStep(env, before, machine, r, Reply(ok, [], 0, actual, script.status, NoError));
      h' := machine.handlers[r];
    }

    method AddWorkUnits(ghost r: nat, ghost h: Handler, tag: Label, actual: int64, ghost script: Script) returns (ghost h': Handler)
      requires Valid() && Runs(r, h, script) && h.pc == Metering && h.work.actual == actual && LabelOf(h) == tag
      modifies this, payee
      ensures Valid() && old(history) <= history
      ensures Runs(r, h', script)
      ensures SameRequest(h', h) && h'.pay.estimate == h.pay.estimate && h'.work.actual == actual && h'.tail.status == h.tail.status
      ensures h'.pc == if actual > h.pay.estimate then Reconciling else Closing
    {
      Interfere(r);
      ghost var before := machine;
      if actual > 0 {
        workUnits := workUnits[tag := Units(workUnits, tag) + actual];
      }
      Record(r, Answer(true), script);
      MeterStep(env, before, machine, r, Answer(true));
      h' := machine.handlers[r];
    }

    method Reconcile(ghost r: nat, ghost h: Handler, sender: Bytes, workID: string, delta: int64, script: Script)
      returns (ghost h': Handler)
      requires Valid() && Runs(r, h, script) && h.pc == Reconciling && AccountOf(h) == Account(sender, workID)
      requires delta == h.work.actual - h.pay.estimate
      modifies this, payee
      ensures Valid() && old(history) <= history
      ensures Runs(r, h', script) && SameRequest(h', h) && h'.tail.status == h.tail.status && h'.pc == Closing
      ensures h'.work.reconciled == Some(script.reconcileOk)
    {
      Interfere(r);
      payee.debitBalanceError := !script.reconcileOk;
      ghost var before := machine;
      var ok, _ := payee.DebitBalance(sender, workID, delta);
      Record(r, Answer(ok), script);
      ReconcileStep(env, before, machine, r, Answer(ok), Account(sender, workID), delta);
      h' := machine.handlers[r];
    }

    method CloseSession(ghost r: nat, ghost h: Handler, sender: Bytes, workID: string, script: Script) returns (ghost h': Handler)
      requires Valid() && Runs(r, h, script) && h.pc == Closing && AccountOf(h) == Account(sender, workID)
      modifies this, payee
      ensures Valid() && old(history) <= history
      ensures Runs(r, h', script)
      ensures SameRequest(h', h) && h'.tail.status == h.tail.status && h'.pc == Reporting && h'.tail.closed == Some(script.closeOk)
    {
      Interfere(r);
      ghost var before := machine;
      payee.closeSessionError := !script.closeOk;
      var ok := payee.CloseSession(sender, workID);
      Record(r, Answer(ok), script);
      CloseStep(env, before, machine, r, Answer(ok));
      h' := machine.handlers[r];
    }

    method IncRequest(ghost r: nat, ghost h: Handler, tag: Label, outcome: Outcome, ctx: CtxErr, ghost script: Script) returns (ghost h': Handler)
      requires Valid() && Runs(r, h, script) && LabelOf(h) == tag && ctx == script.ctx
      requires if h.pc == Shedding then outcome == Outcome5xx
               else h.pc == Reporting && outcome == ClassifyOutcome(ctx, StatusOf(h))
      modifies this, payee
      ensures Valid() && old(history) <= history
      ensures Runs(r, h', script)
      ensures h'.req == h.req && h'.tail.status == h.tail.status && h'.pc == if h.pc == Shedding then Done else Releasing
    {
      Interfere(r);
      ghost var before := machine;
      requests := requests + multiset{(tag, outcome)};
      Record(r, Answer(true).(ctx := ctx), script);
      ReportStep(env, before, machine, r, Answer(true).(ctx := ctx));
      h' := machine.handlers[r];
    }

    method Release(ghost r: nat, ghost h: Handler, ghost script: Script) returns (ghost h': Handler)
      requires Valid() && Runs(r, h, script) && h.pc == Releasing
      modifies this, payee
      ensures Valid() && old(history) <= history
      ensures Runs(r, h', script)
      ensures h'.req == h.req && h'.tail.status == h.tail.status && h'.pc == Done
    {
      Interfere(r);
      ghost var before := machine;
      inflight := inflight - 1;
      Record(r, Answer(true), script);
      ReleaseStep(env, before, machine, r, Answer(true));
      h' := machine.handlers[r];
    }

    method Intake(ghost r: nat, ghost h: Handler, req: Request, ghost script: Script) returns (ghost h': Handler, intake: Intake)
      requires Valid() && Runs(r, h, script) && h.pc == Examining && h.req == req
      modifies this, payee
      ensures Valid() && old(history) <= history
      ensures Runs(r, h', script) && h'.req == req && h'.slot == h.slot && h'.pay.paid == h.pay.paid
      ensures match intake
              case Refused(refusal, modelLabel) => Refuses(h', refusal) && h'.modelLabel == modelLabel
              case Ready(model, session) =>
                h'.pc == Opening && h'.session == session && h'.modelLabel == model
    {
      Interfere(r);
      ghost var before := machine;
      intake := Ingest(req);
      Record(r, Answer(true), script);
      ExamineStep(env, before, machine, r, Answer(true));
      h' := machine.handlers[r];
    }

    /** The body of the handler, from reading the request to the last statement before the
        deferred functions run. Returns what those functions close over. */
    method Body(ghost r: nat, ghost h0: Handler, req: Request, sw: StatusWriter, script: Script)
      returns (ghost h: Handler, modelLabel: string, paid: bool, sender: Bytes, workID: string)
      requires Valid() && Runs(r, h0, script) && h0.pc == Examining && h0.req == req && h0.slot == Some(true) && h0.pay.paid.None?
      requires !sw.wrote
      modifies this, payee, sw
      ensures Valid() && old(history) <= history
      ensures Runs(r, h, script) && h.pc == Unwind(h) && h.req == req && h.slot == Some(true)
      ensures modelLabel == h.modelLabel && paid == (h.pay.paid == Some(true))
      ensures paid ==> AccountOf(h) == Account(sender, workID)
      ensures sw.First() == h.tail.status
    {
      paid, sender, workID := false, [], "";
      var intake;
      h, intake := Intake(r, h0, req, script);
      if intake.Refused? {
        modelLabel := intake.modelLabel;
        h := WriteError(r, h, intake.refusal, sw, script);
        return;
      }
      modelLabel := intake.model;
      workID := intake.session.workID;
      h, paid, sender := Proceed(r, h, Label(req.capability, modelLabel), intake.session, sw, script);
    }

    /** The body of an admissible request. Once the payment is in, CloseSession is deferred. */
    method Proceed(ghost r: nat, ghost h0: Handler, tag: Label, session: Session, sw: StatusWriter, script: Script)
      returns (ghost h: Handler, paid: bool, sender: Bytes)
      requires Valid() && Runs(r, h0, script) && h0.pc == Opening && h0.session == session && LabelOf(h0) == tag
      requires h0.slot == Some(true) && h0.pay.paid.None? && !sw.wrote
      modifies this, payee, sw
      ensures Valid() && old(history) <= history
      ensures Runs(r, h, script) && h.pc == Unwind(h) && h.slot == Some(true)
      ensures h.req == h0.req && h.modelLabel == h0.modelLabel && paid == (h.pay.paid == Some(true))
      ensures paid ==> AccountOf(h) == Account(sender, session.workID)
      ensures sw.First() == h.tail.status
    {
      h, paid, sender := Pay(r, h0, session, sw, script);
      if !paid {
        return;
      }
      var ok, estimate;
      h, ok, estimate := Reserve(r, h, sw, sender, session.workID, script);
      if !ok {
        return;
      }
      h := Dispatch(r, h, tag, sw, sender, session.workID, estimate, script);
    }

    /** Steps 5 and 6: open the session and process the payment, or write the refusal. */
    method Pay(ghost r: nat, ghost h0: Handler, session: Session, sw: StatusWriter, script: Script)
      returns (ghost h: Handler, paid: bool, sender: Bytes)
      requires Valid() && Runs(r, h0, script) && h0.pc == Opening && h0.session == session
      requires h0.slot == Some(true) && h0.pay.paid.None? && !sw.wrote
      modifies this, payee, sw
      ensures Valid() && old(history) <= history
      ensures Runs(r, h, script) && h.req == h0.req && h.modelLabel == h0.modelLabel && h.slot == h0.slot
      ensures paid ==> h.pay.paid == Some(true) && h.pc == Estimating && AccountOf(h) == Account(sender, session.workID) && !sw.wrote
      ensures !paid ==> h.pay.paid != Some(true) && h.pc == Reporting && sw.First() == h.tail.status
    {
      sender := [];
      h, paid := OpenSession(r, h0, session, script);
      if !paid {
        h := WriteError(r, h, Refusal(502, None), sw, script);
        return;
      }
      h, paid, sender := ProcessPayment(r, h, session.workID, script);
      if !paid {
        h := WriteError(r, h, Refusal(402, Some(ProcessPaymentFailed)), sw, script);
      }
    }

    /** Steps 7 and 8: estimate and upfront debit. Either the way to Serve is free, or the
        refusal has been written. */
    method Reserve(ghost r: nat, ghost h0: Handler, sw: StatusWriter, sender: Bytes, workID: string, script: Script)
      returns (ghost h: Handler, ok: bool, estimate: int64)
      requires Valid() && Runs(r, h0, script) && h0.pc == Estimating && h0.slot == h0.pay.paid == Some(true) && !sw.wrote
      requires AccountOf(h0) == Account(sender, workID)
      modifies this, payee, sw
      ensures Valid() && old(history) <= history && Runs(r, h, script) && SameRequest(h, h0)
      ensures ok ==> h.pc == Entering && h.pay.estimate == estimate >= 0 && !sw.wrote
      ensures !ok ==> h.pc == Closing && sw.First() == h.tail.status
    {
      h, ok, estimate := EstimateWorkUnits(r, h0, script);
      if !ok {
        h := WriteError(r, h, Refusal(400, None), sw, script);
        return;
      }
      h, ok := DebitOrRefuse(r, h, sw, sender, workID, estimate, script);
    }

    method DebitOrRefuse(ghost r: nat, ghost h0: Handler, sw: StatusWriter, sender: Bytes, workID: string,
                         estimate: int64, script: Script)
      returns (ghost h: Handler, ok: bool)
      requires Valid() && Runs(r, h0, script) && h0.pc == Debiting && h0.slot == h0.pay.paid == Some(true) && !sw.wrote
      requires AccountOf(h0) == Account(sender, workID) && h0.pay.estimate == estimate
      modifies this, payee, sw
      ensures Valid() && old(history) <= history && Runs(r, h, script) && SameRequest(h, h0)
      ensures ok ==> h.pc == Entering && h.pay.estimate == estimate && !sw.wrote
      ensures !ok ==> h.pc == Closing && sw.First() == h.tail.status
    {
      var balance;
      h, ok, balance := DebitUpfront(r, h0, sender, workID, estimate, script);
      if !ok {
        h := WriteError(r, h, Refusal(502, Some(DebitError)), sw, script);
        return;
      }
      if balance < 0 {
        ok := false;
        h := WriteError(r, h, Refusal(402, Some(InsufficientBalance)), sw, script);
      }
    }

    /** Steps 9 and 10: serve, meter, reconcile. A Serve error returns before both. */
    method Dispatch(ghost r: nat, ghost h0: Handler, tag: Label, sw: StatusWriter, sender: Bytes, workID: string,
                    estimate: int64, script: Script)
      returns (ghost h: Handler)
      requires Valid() && Runs(r, h0, script) && h0.pc == Entering && !sw.wrote
      requires AccountOf(h0) == Account(sender, workID) && LabelOf(h0) == tag && h0.pay.estimate == estimate >= 0
      modifies this, payee, sw
      ensures Valid() && old(history) <= history
      ensures Runs(r, h, script) && h.pc == Closing && SameRequest(h, h0)
      ensures sw.First() == h.tail.status
    {
      var ok, actual;
      h := Enter(r, h0, script);
      h, ok, actual := Serve(r, h, sw, script);
      if !ok {
        return;
      }
      h := AddWorkUnits(r, h, tag, actual, script);
      if actual > estimate {
        var delta: int64 := actual - estimate;
        h := Reconcile(r, h, sender, workID, delta, script);
      }
    }

    /** A request arrives on its own goroutine. */
    ghost method Spawn(req: Request, script: Script) returns (r: nat)
      requires Valid()
      modifies this`history, this`machine
      ensures Valid() && old(history) <= history
      ensures Runs(r, Fresh(req), script) && r == old(|machine.handlers|)
    {
      assert Look(true);
      ExecSnoc(env, history, Arrive(req));
      r := |machine.handlers|;
      history, machine := history + [Arrive(req)], Step(env, machine, Arrive(req));
    }

    /** The whole handler. Whatever the other goroutines do in between, everything it does is
        a turn of the machine, it runs to the end, and the deferred functions run last
        registered first: CloseSession, then the request metric, then the slot release. Each call
        has had the script's answer. The status sent, the series the request was counted on, and
        what it was charged over all its debits in the log, are what the request and the script
        make them, given only whether a slot was free and whether the balance held. */
    method PaymentMiddleware(req: Request, script: Script) returns (ghost r: nat, status: nat)
      requires Valid()
      modifies this, payee
      ensures Valid() && old(history) <= history && machine == Exec(env, history)
      ensures r == old(|machine.handlers|) && r < |machine.handlers|
      ensures var h := machine.handlers[r]; h.req == req && h.pc == Done && Answered(env, h, script)
      ensures
        var h := machine.handlers[r];
        var slotFree, balanceHolds := h.slot == Some(true), h.pay.balance0 >= 0;
        var sent := StatusBy(env, req, script, slotFree, balanceHolds);
        && status == (if sent.Some? then sent.value else 0)
        && (LabelOf(h), OutcomeOf(h)) == SeriesBy(env, req, script, slotFree, balanceHolds)
        && Charged(Trace(machine.log, r)) == ChargeOf(script, slotFree && Examine(env, req).Ready?, balanceHolds)
    {
      r := Spawn(req, script);
      var sw := new StatusWriter();
      status := Handle(r, Fresh(req), req, sw, script);
      assert Look(true);
      ScriptedCharge(env, history, r, script);
      ScriptedOutcome(env, history, r, script);
    }

    /** The gate, then the body, then the deferred functions; a shed request has none. */
    method Handle(ghost r: nat, ghost h0: Handler, req: Request, sw: StatusWriter, script: Script) returns (status: nat)
      requires Valid() && Runs(r, h0, script) && h0 == Fresh(req) && !sw.wrote
      modifies this, payee, sw
      ensures Valid() && old(history) <= history
      ensures r < |machine.handlers| && Follows(env, machine.handlers[r], script)
      ensures var h := machine.handlers[r]; h.req == req && h.pc == Done && status == StatusOf(h)
    {
      ghost var h;
      var admitted;
      h, admitted := TryAcquire(r, h0, script);
      if !admitted {
        status := Shed(r, h, Label(req.capability, UNSET), sw, script);
        return;
      }
      var modelLabel, paid, sender, workID;
      h, modelLabel, paid, sender, workID := Body(r, h, req, sw, script);
      status := Deferred(r, h, req.capability, modelLabel, paid, sender, workID, sw, script);
    }

    /** No slot: write the 503, count the request, and that is all. */
    method Shed(ghost r: nat, ghost h0: Handler, tag: Label, sw: StatusWriter, script: Script) returns (status: nat)
      requires Valid() && Runs(r, h0, script) && h0.slot == Some(false) && Refuses(h0, Refusal(503, None))
      requires LabelOf(h0) == tag && !sw.wrote
      modifies this, payee, sw
      ensures Valid() && old(history) <= history
      ensures r < |machine.handlers| && Follows(env, machine.handlers[r], script)
      ensures var h := machine.handlers[r]; h.req == h0.req && h.pc == Done && status == StatusOf(h)
    {
      ghost var h := WriteError(r, h0, Refusal(503, None), sw, script);
      h := IncRequest(r, h, tag, Outcome5xx, script.ctx, script);
      return sw.status;
    }

    /** The deferred functions, last registered first. */
    method Deferred(ghost r: nat, ghost h0: Handler, capability: string, modelLabel: string, paid: bool,
                    sender: Bytes, workID: string, sw: StatusWriter, script: Script)
      returns (status: nat)
      requires Valid() && Runs(r, h0, script) && h0.pc == Unwind(h0) && h0.slot == Some(true) && LabelOf(h0) == Label(capability, modelLabel)
      requires paid == (h0.pay.paid == Some(true)) && (paid ==> AccountOf(h0) == Account(sender, workID))
      requires sw.First() == h0.tail.status
      modifies this, payee
      ensures Valid() && old(history) <= history
      ensures r < |machine.handlers|
      ensures Follows(env, machine.handlers[r], script)
      ensures var h := machine.handlers[r]; h.req == h0.req && h.pc == Done && status == StatusOf(h)
    {
      ghost var h := h0;
      if paid {
        h := CloseSession(r, h, sender, workID, script);
      }
      status := if sw.wrote then sw.status else 0;
      var outcome := ClassifyOutcome(script.ctx, status);
      h := IncRequest(r, h, Label(capability, modelLabel), outcome, script.ctx, script);
      h := Release(r, h, script);
    }
  }
}
