/** The counters against the requests they count, and progress of every request. */
module PaidRequestMetrics {
  import opened Go
  import opened PaidRequest
  import opened PaidRequestTrace
  import opened PaidRequestCounts

  // ----- work units -----

  function MeteredAs(tag: Label): Handler -> int {
    (h: Handler) => if h.work.metered && LabelOf(h) == tag then h.work.actual else 0
  }

  /** The delta whose debit is the next step. */
  function PendingAs(tag: Label): Handler -> int {
    (h: Handler) => if h.pc == Reconciling && LabelOf(h) == tag then h.work.actual - h.pay.estimate else 0
  }

  lemma {:induction false} TurnOnWorkUnits(env: Env, s: State, r: nat, reply: Reply, tag: Label)
    requires r < |s.handlers| && Consistent(s.handlers[r])
    ensures
      Units(Turned(env, s, r, reply).workUnits, tag) - Units(s.workUnits, tag)
      == MeteredAs(tag)(TurnedLocals(env, s, r, reply)) - MeteredAs(tag)(s.handlers[r])
  {
    var h := s.handlers[r];
    var h' := TurnedLocals(env, s, r, reply);
    if h.pc != Metering {
      OnlyMeteringMeters(env, h, s.inflight < Slots(env), BalanceAfterDebit(env, s, h), reply);
    }
  }

  lemma OnlyMeteringMeters(env: Env, h: Handler, free: bool, left: int, reply: Reply)
    requires Consistent(h) && h.pc != Metering
    ensures var h' := NextLocals(env, h, free, left, reply);
            h'.work.metered == h.work.metered && (h.work.metered ==> LabelOf(h') == LabelOf(h) && h'.work.actual == h.work.actual)
  {
    match h.pc {
      case Examining =>
      case Serving =>
      case _ =>
    }
  }

  lemma {:induction false} StepOnWorkUnits(env: Env, s: State, m: Move, tag: Label)
    requires Locals(s) && Units(s.workUnits, tag) == Sum(s.handlers, MeteredAs(tag))
    ensures var s' := Step(env, s, m); Units(s'.workUnits, tag) == Sum(s'.handlers, MeteredAs(tag))
  {
    match m
    case Arrive(req) => SumPush(s.handlers, Fresh(req), MeteredAs(tag));
    case Turn(r, reply) =>
      if r < |s.handlers| {
        var h' := TurnedLocals(env, s, r, reply);
        TurnOnWorkUnits(env, s, r, reply, tag);
        SumUpdate(s.handlers, r, h', MeteredAs(tag));
        assert Step(env, s, m).handlers == s.handlers[r := h'];
      }
  }

  lemma {:induction false} ExecWorkUnits(env: Env, schedule: seq<Move>, tag: Label)
    ensures var s := Exec(env, schedule); Units(s.workUnits, tag) == Sum(s.handlers, MeteredAs(tag))
    decreases |schedule|
  {
    if schedule == [] {
      assert Exec(env, []) == INITIAL;
    } else {
      var n := |schedule| - 1;
      ExecWorkUnits(env, schedule[..n], tag);
      ExecLocals(env, schedule[..n]);
      StepOnWorkUnits(env, Exec(env, schedule[..n]), schedule[n], tag);
    }
  }

  /** What a request has delivered and been metered for, told without its metric flag. */
  function DeliveredAs(tag: Label): Handler -> int {
    (h: Handler) =>
      if h.work.served == Some(true) && h.pc != Metering && h.work.actual > 0 && LabelOf(h) == tag then h.work.actual else 0
  }

  /** The work-units counter is exact: in every state it is the positive actual units of the
      requests of that label whose Serve succeeded and whose metric step has run. */
  lemma WorkUnitsAreExact(env: Env, schedule: seq<Move>, tag: Label)
    ensures var s := Exec(env, schedule); Units(s.workUnits, tag) == Sum(s.handlers, DeliveredAs(tag))
  {
    var s := Exec(env, schedule);
    ExecWorkUnits(env, schedule, tag);
    ExecLocals(env, schedule);
    forall r | 0 <= r < |s.handlers| ensures MeteredAs(tag)(s.handlers[r]) == DeliveredAs(tag)(s.handlers[r]) {
      MeteredIsDelivered(s.handlers[r]);
    }
    SumLe(s.handlers, MeteredAs(tag), DeliveredAs(tag));
    SumLe(s.handlers, DeliveredAs(tag), MeteredAs(tag));
  }

  lemma MeteredIsDelivered(h: Handler)
    requires Consistent(h)
    ensures h.work.metered <==> h.work.served == Some(true) && h.pc != Metering && h.work.actual > 0
  {
  }

  // The log, read for one label: debits the daemon took, and reconcile debits it refused.

  predicate IsFor(hs: seq<Handler>, r: nat, tag: Label) { r < |hs| && LabelOf(hs[r]) == tag }

  function TakenFor(hs: seq<Handler>, tag: Label): Event -> int {
    (e: Event) => if e.Debited? && e.ok && IsFor(hs, e.r, tag) then e.units else 0
  }

  function RefusedFor(hs: seq<Handler>, tag: Label): Event -> int {
    (e: Event) => if e.Debited? && !e.ok && !e.upfront && IsFor(hs, e.r, tag) then e.units else 0
  }

  /** A quantity of one event, summed over a history. */
  ghost function TallyOf(t: History, f: Event -> int): int {
    match t
    case Start => 0
    case Then(before, e) => TallyOf(before, f) + f(e)
  }

  ghost function SumTo(n: nat, f: nat -> int): int {
    if n == 0 then 0 else SumTo(n - 1, f) + f(n - 1)
  }

  ghost function ByRequest(log: seq<Event>, f: Event -> int): nat -> int {
    (r: nat) => TallyOf(Trace(log, r), f)
  }

  lemma {:induction false} SumToShift(n: nat, f: nat -> int, g: nat -> int, r: nat, d: int)
    requires forall q: nat :: q < n ==> g(q) == f(q) + if q == r then d else 0
    ensures SumTo(n, g) == SumTo(n, f) + if r < n then d else 0
  {
    if n > 0 {
      SumToShift(n - 1, f, g, r, d);
    }
  }

  /** A tally over the log is the sum of the tallies over the requests' own traces. */
  lemma {:induction false} TallyByRequest(log: seq<Event>, n: nat, f: Event -> int)
    requires forall i :: 0 <= i < |log| ==> log[i].r < n
    ensures Tally(log, f) == SumTo(n, ByRequest(log, f))
    decreases |log|
  {
    if log == [] {
      SumToShift(n, (r: nat) => 0, ByRequest(log, f), n, 0);
      SumOfZeros(n);
    } else {
      var init, e := log[..|log| - 1], log[|log| - 1];
      TallyByRequest(init, n, f);
      forall q: nat | q < n
        ensures ByRequest(log, f)(q) == ByRequest(init, f)(q) + if q == e.r then f(e) else 0
      {
      }
      SumToShift(n, ByRequest(init, f), ByRequest(log, f), e.r, f(e));
    }
  }

  lemma {:induction false} SumOfZeros(n: nat)
    ensures SumTo(n, (r: nat) => 0) == 0
  {
    if n > 0 {
      SumOfZeros(n - 1);
    }
  }

  /** Units of the reconcile debits refused over a history. */
  function RefusedDeltas(t: History): int {
    match t
    case Start => 0
    case Then(before, e) => RefusedDeltas(before) + if e.Debited? && !e.ok && !e.upfront then e.units else 0
  }

  lemma RefusedIf()
    ensures forall b, t, e {:trigger RefusedDeltas(If(b, t, e))} ::
              RefusedDeltas(If(b, t, e)) == RefusedDeltas(t) + if b && e.Debited? && !e.ok && !e.upfront then e.units else 0
  {
  }

  function RefusedDelta(h: Handler): int { if h.work.reconciled == Some(false) then h.work.actual - h.pay.estimate else 0 }

  lemma RefusedOfBody(r: nat, h: Handler)
    ensures RefusedDeltas(BodyTrace(r, h)) == RefusedDelta(h)
  {
    RefusedIf();
    match h.work.reconciled {
      case None =>
      case Some(ok) => assert h.work.reconciled == Some(ok);
    }
  }

  lemma RefusedOfTrace(r: nat, h: Handler)
    ensures RefusedDeltas(Expected(r, h)) == RefusedDelta(h)
  {
    RefusedOfBody(r, h);
    RefusedIf();
  }

  lemma {:induction false} OwnLabelCounts(t: History, hs: seq<Handler>, r: nat, tag: Label)
    requires r < |hs| && LabelOf(hs[r]) == tag && OnlyOf(t, r)
    ensures TallyOf(t, TakenFor(hs, tag)) == Charged(t) && TallyOf(t, RefusedFor(hs, tag)) == RefusedDeltas(t)
  {
    match t
    case Start =>
    case Then(before, e) => OwnLabelCounts(before, hs, r, tag);
  }

  lemma {:induction false} OtherLabelsDoNotCount(t: History, hs: seq<Handler>, r: nat, tag: Label)
    requires r < |hs| && LabelOf(hs[r]) != tag && OnlyOf(t, r)
    ensures TallyOf(t, TakenFor(hs, tag)) == TallyOf(t, RefusedFor(hs, tag)) == 0
  {
    match t
    case Start =>
    case Then(before, e) => OtherLabelsDoNotCount(before, hs, r, tag);
  }

  predicate OnlyOf(t: History, r: nat) {
    match t
    case Start => true
    case Then(before, e) => e.r == r && OnlyOf(before, r)
  }

  lemma {:induction false} TraceIsOwn(log: seq<Event>, r: nat)
    ensures OnlyOf(Trace(log, r), r)
    decreases |log|
  {
    if log != [] {
      TraceIsOwn(log[..|log| - 1], r);
    }
  }

  lemma MeteredIsCovered(h: Handler)
    requires Consistent(h)
    ensures (if h.work.metered then h.work.actual else 0)
            <= ChargedUnits(h) + RefusedDelta(h) + (if h.pc == Reconciling then h.work.actual - h.pay.estimate else 0)
  {
    assert h.work.metered && h.work.actual > h.pay.estimate ==> h.pc == Reconciling || h.work.reconciled.Some?;
    match h.work.reconciled {
      case None =>
      case Some(ok) => assert h.work.reconciled == Some(ok);
    }
  }

  lemma RequestIsCovered(s: State, r: nat, tag: Label)
    requires Locals(s) && r < |s.handlers|
    ensures MeteredAs(tag)(s.handlers[r])
            <= ByRequest(s.log, TakenFor(s.handlers, tag))(r) + ByRequest(s.log, RefusedFor(s.handlers, tag))(r)
               + PendingAs(tag)(s.handlers[r])
  {
    var h := s.handlers[r];
    TraceIsOwn(s.log, r);
    if LabelOf(h) == tag {
      OwnLabelCounts(Trace(s.log, r), s.handlers, r, tag);
      ChargedOfTrace(r, h);
      RefusedOfTrace(r, h);
      MeteredIsCovered(h);
    } else {
      OtherLabelsDoNotCount(Trace(s.log, r), s.handlers, r, tag);
    }
  }

  lemma {:induction false} SumCovered(hs: seq<Handler>, n: nat, f: Handler -> int, g: nat -> int, k: nat -> int, p: Handler -> int)
    requires n <= |hs| && forall r: nat :: r < |hs| ==> f(hs[r]) <= g(r) + k(r) + p(hs[r])
    ensures Sum(hs[..n], f) <= SumTo(n, g) + SumTo(n, k) + Sum(hs[..n], p)
  {
    if n > 0 {
      SumCovered(hs, n - 1, f, g, k, p);
      assert hs[..n][..n - 1] == hs[..n - 1];
    }
  }

  /** In every intermediate state and for every (capability, model), the work-units counter is
      at most the units of the debits the daemon took for those requests, plus the units of the
      reconcile debits it refused, plus the deltas still to be debited. The metric runs ahead of
      the debits by those deltas and no more. */
  lemma WorkUnitsAreCovered(env: Env, schedule: seq<Move>, tag: Label)
    ensures
      var s := Exec(env, schedule);
      Units(s.workUnits, tag)
      <= Tally(s.log, TakenFor(s.handlers, tag)) + Tally(s.log, RefusedFor(s.handlers, tag))
         + Sum(s.handlers, PendingAs(tag))
  {
    var s := Exec(env, schedule);
    var hs, n := s.handlers, |s.handlers|;
    ExecWorkUnits(env, schedule, tag);
    ExecLocals(env, schedule);
    forall r: nat | r < n
      ensures MeteredAs(tag)(hs[r])
              <= ByRequest(s.log, TakenFor(hs, tag))(r) + ByRequest(s.log, RefusedFor(hs, tag))(r) + PendingAs(tag)(hs[r])
    {
      RequestIsCovered(s, r, tag);
    }
    SumCovered(hs, n, MeteredAs(tag), ByRequest(s.log, TakenFor(hs, tag)), ByRequest(s.log, RefusedFor(hs, tag)), PendingAs(tag));
    TallyByRequest(s.log, n, TakenFor(hs, tag));
    TallyByRequest(s.log, n, RefusedFor(hs, tag));
    assert hs[..n] == hs;
  }

  // ----- requests -----

  function ReportedAs(tag: Label, outcome: Outcome): Handler -> int {
    (h: Handler) => if h.tail.reported == Some(outcome) && LabelOf(h) == tag then 1 else 0
  }

  lemma OnlyReportersReport(env: Env, h: Handler, free: bool, left: int, reply: Reply)
    requires Consistent(h) && h.pc != Shedding && h.pc != Reporting
    ensures var h' := NextLocals(env, h, free, left, reply);
            h'.tail.reported == h.tail.reported && (h.tail.reported.Some? ==> LabelOf(h') == LabelOf(h))
  {
  }

  lemma ReporterOnRequests(env: Env, s: State, r: nat, reply: Reply)
    requires r < |s.handlers| && Consistent(s.handlers[r])
    requires s.handlers[r].pc == Shedding || s.handlers[r].pc == Reporting
    ensures
      var h, h' := s.handlers[r], TurnedLocals(env, s, r, reply);
      && NextShared(env, s, h, h').requests == s.requests + multiset{(LabelOf(h'), OutcomeOf(h'))}
      && h.tail.reported.None? && h'.tail.reported == Some(OutcomeOf(h'))
  {
  }

  lemma OthersOnRequests(env: Env, s: State, h: Handler, h': Handler)
    requires h.pc != Shedding && h.pc != Reporting
    ensures NextShared(env, s, h, h').requests == s.requests
  {
  }

  /** A turn's effect on the request counter, told by the locals before and after. */
  ghost predicate CountsReport(before: multiset<(Label, Outcome)>, after: multiset<(Label, Outcome)>, h: Handler, h': Handler) {
    if h'.tail.reported == h.tail.reported then
      after == before && (h.tail.reported.Some? ==> LabelOf(h') == LabelOf(h))
    else
      h.tail.reported.None? && h'.tail.reported.Some? && after == before + multiset{(LabelOf(h'), OutcomeOf(h'))}
  }

  lemma TurnCountsReport(env: Env, s: State, r: nat, reply: Reply)
    requires r < |s.handlers| && Consistent(s.handlers[r])
    ensures
      var h, h' := s.handlers[r], TurnedLocals(env, s, r, reply);
      CountsReport(s.requests, NextShared(env, s, h, h').requests, h, h')
  {
    var h := s.handlers[r];
    if h.pc == Shedding || h.pc == Reporting {
      ReporterOnRequests(env, s, r, reply);
    } else {
      OthersOnRequests(env, s, h, TurnedLocals(env, s, r, reply));
      OnlyReportersReport(env, h, s.inflight < Slots(env), BalanceAfterDebit(env, s, h), reply);
    }
  }

  lemma ReportShifts(before: multiset<(Label, Outcome)>, after: multiset<(Label, Outcome)>, h: Handler, h': Handler,
                     tag: Label, outcome: Outcome)
    requires CountsReport(before, after, h, h')
    ensures after[(tag, outcome)] - before[(tag, outcome)] == ReportedAs(tag, outcome)(h') - ReportedAs(tag, outcome)(h)
  {
  }

  lemma {:induction false} TurnOnRequests(env: Env, s: State, r: nat, reply: Reply, tag: Label, outcome: Outcome)
    requires r < |s.handlers| && Consistent(s.handlers[r])
    ensures
      Turned(env, s, r, reply).requests[(tag, outcome)] - s.requests[(tag, outcome)]
      == ReportedAs(tag, outcome)(TurnedLocals(env, s, r, reply)) - ReportedAs(tag, outcome)(s.handlers[r])
  {
    var h, h' := s.handlers[r], TurnedLocals(env, s, r, reply);
    TurnCountsReport(env, s, r, reply);
    ReportShifts(s.requests, NextShared(env, s, h, h').requests, h, h', tag, outcome);
  }

  lemma {:induction false} StepOnRequests(env: Env, s: State, m: Move, tag: Label, outcome: Outcome)
    requires Locals(s) && s.requests[(tag, outcome)] == Sum(s.handlers, ReportedAs(tag, outcome))
    ensures var s' := Step(env, s, m); s'.requests[(tag, outcome)] == Sum(s'.handlers, ReportedAs(tag, outcome))
  {
    match m
    case Arrive(req) => SumPush(s.handlers, Fresh(req), ReportedAs(tag, outcome));
    case Turn(r, reply) =>
      if r < |s.handlers| {
        var h' := TurnedLocals(env, s, r, reply);
        TurnOnRequests(env, s, r, reply, tag, outcome);
        SumUpdate(s.handlers, r, h', ReportedAs(tag, outcome));
        assert Step(env, s, m).handlers == s.handlers[r := h'];
      }
  }

  lemma {:induction false} ExecRequests(env: Env, schedule: seq<Move>, tag: Label, outcome: Outcome)
    ensures var s := Exec(env, schedule);
            s.requests[(tag, outcome)] == Sum(s.handlers, ReportedAs(tag, outcome))
    decreases |schedule|
  {
    if schedule != [] {
      var n := |schedule| - 1;
      ExecRequests(env, schedule[..n], tag, outcome);
      ExecLocals(env, schedule[..n]);
      StepOnRequests(env, Exec(env, schedule[..n]), schedule[n], tag, outcome);
    }
  }

  /** The request counter of a label and outcome is the number of requests reported under them,
      and a finished request was reported exactly once. */
  lemma RequestsCountedOnce(env: Env, schedule: seq<Move>, tag: Label, outcome: Outcome, r: nat)
    requires r < |Exec(env, schedule).handlers|
    ensures
      var s := Exec(env, schedule);
      && s.requests[(tag, outcome)] == Sum(s.handlers, ReportedAs(tag, outcome))
      && Reports(Trace(s.log, r)) <= 1
      && (s.handlers[r].pc == Done ==> Reports(Trace(s.log, r)) == 1)
  {
    ExecRequests(env, schedule, tag, outcome);
    ExecLocals(env, schedule);
    ReportsOfTrace(r, Exec(env, schedule).handlers[r]);
  }

  // ----- outcomes -----

  const REFUSAL_STATUSES: set<nat> := {400, 402, 404, 500, 502, 503}

  /** The status a handler reports on is the one it refused with or was served. */
  predicate OutcomeOk(h: Handler) {
    && (h.tail.refusal.Some? ==> h.tail.refusal.value.status in REFUSAL_STATUSES)
    && (h.tail.wrote ==> h.tail.status == Some(RefusalOf(h).status))
    && (h.tail.reported.Some? ==>
          h.tail.reported.value == if h.slot == Some(false) then Outcome5xx else ClassifyOutcome(h.tail.ctx, StatusOf(h)))
    && h.modelLabel == NameOf(h)
  }

  /** The model a handler is labelled with: the request's, once it has been admitted and read. */
  function NameOf(h: Handler): string {
    if h.slot == Some(true) && h.pc != Examining && Readable(h.req) then h.req.model.value else UNSET
  }

  lemma BodyKeepsOutcome(env: Env, h: Handler, free: bool, left: int, reply: Reply)
    requires Consistent(h) && OutcomeOk(h) && InBody(h.pc)
    ensures OutcomeOk(NextLocals(env, h, free, left, reply))
  {
  }

  lemma ServiceKeepsOutcome(env: Env, h: Handler, free: bool, left: int, reply: Reply)
    requires Consistent(h) && OutcomeOk(h) && InService(h.pc)
    ensures OutcomeOk(NextLocals(env, h, free, left, reply))
  {
  }

  lemma EdgesKeepOutcome(env: Env, h: Handler, free: bool, left: int, reply: Reply)
    requires Consistent(h) && OutcomeOk(h) && !InBody(h.pc) && !InService(h.pc)
    ensures OutcomeOk(NextLocals(env, h, free, left, reply))
  {
  }

  ghost predicate OutcomesOk(s: State) {
    forall r: nat :: r < |s.handlers| ==> OutcomeOk(s.handlers[r])
  }

  lemma StepKeepsOutcomes(env: Env, s: State, m: Move)
    requires Locals(s) && OutcomesOk(s)
    ensures OutcomesOk(Step(env, s, m))
  {
    match m
    case Arrive(_) =>
    case Turn(r, reply) =>
      if r < |s.handlers| {
        var h, free := s.handlers[r], s.inflight < Slots(env);
        if InBody(h.pc) {
          BodyKeepsOutcome(env, h, free, BalanceAfterDebit(env, s, h), reply);
        } else if InService(h.pc) {
          ServiceKeepsOutcome(env, h, free, BalanceAfterDebit(env, s, h), reply);
        } else {
          EdgesKeepOutcome(env, h, free, BalanceAfterDebit(env, s, h), reply);
        }
        assert Step(env, s, m).handlers == s.handlers[r := TurnedLocals(env, s, r, reply)];
      }
  }

  lemma {:induction false} ExecOutcomes(env: Env, schedule: seq<Move>)
    ensures OutcomesOk(Exec(env, schedule))
    decreases |schedule|
  {
    if schedule != [] {
      var n := |schedule| - 1;
      ExecOutcomes(env, schedule[..n]);
      ExecLocals(env, schedule[..n]);
      StepKeepsOutcomes(env, Exec(env, schedule[..n]), schedule[n]);
    }
  }

  /** What a finished request is counted as. It is counted as canceled if and only if it held a
      slot and its context had ended by then, and a shed request is always a 5xx. A 2xx is only
      ever counted for a request that was paid for and served, with its upfront debit leaving no
      negative balance; a request that did not reach Serve is counted as the class of the refusal
      it was written, unless its context ended. Its label is the model it named, or none if it
      was shed or unreadable. */
  lemma OutcomesAreTruthful(env: Env, schedule: seq<Move>, r: nat)
    requires r < |Exec(env, schedule).handlers| && Exec(env, schedule).handlers[r].pc == Done
    ensures Truthful(Exec(env, schedule).handlers[r])
  {
    ExecOutcomes(env, schedule);
    ExecLocals(env, schedule);
    FinishedOutcome(Exec(env, schedule).handlers[r]);
  }

  ghost predicate Truthful(h: Handler) {
    var outcome := OutcomeOf(h);
    && (outcome == Outcome2xx ==>
          h.work.served.Some? && h.pay.debited == Some(true) && h.pay.balance0 >= 0 && 200 <= StatusOf(h) < 300)
    && (outcome == Outcome402 && !h.work.entered ==> RefusalOf(h).status == 402 && RefusalOf(h).reason.Some?)
    && (!h.work.entered ==> h.tail.status == Some(RefusalOf(h).status) && RefusalOf(h).status in REFUSAL_STATUSES)
    && (!h.work.entered && outcome != OutcomeCanceled ==> outcome == ClassifyOutcome(NoError, RefusalOf(h).status))
    && (outcome == OutcomeCanceled <==> h.slot == Some(true) && Gone(h.tail.ctx))
    && (h.slot == Some(false) ==> outcome == Outcome5xx)
    && (outcome != OutcomeCanceled && h.slot == Some(true) ==> outcome == ClassifyOutcome(NoError, StatusOf(h)))
    && LabelOf(h) == Label(h.req.capability, if h.slot == Some(true) && Readable(h.req) then h.req.model.value else UNSET)
  }

  lemma FinishedOutcome(h: Handler)
    requires Consistent(h) && OutcomeOk(h) && h.pc == Done
    ensures Truthful(h)
  {
    assert !h.work.entered ==> h.tail.refusal.Some? && h.tail.wrote;
  }

  // ----- payment rejections -----

  function Wrote402(e: Event): int { if e.Wrote? && e.status == 402 then 1 else 0 }
  function UpfrontError(e: Event): int { if e.Debited? && e.upfront && !e.ok then 1 else 0 }

  /** A failed upfront debit that is still to be counted. */
  function Uncounted(h: Handler): int { if h.pc == Counting && h.pay.debited == Some(false) then 1 else 0 }

  /** A 402 that is counted and still to be written. */
  function Unwritten(h: Handler): int { if h.pc == Refusing && RefusalOf(h).status == 402 then 1 else 0 }

  function Owed(h: Handler): int { Uncounted(h) - Unwritten(h) }

  function At(e: Option<Event>, f: Event -> int): int { if e.Some? then f(e.value) else 0 }

  ghost predicate Settles(counted: int, h: Handler, h': Handler, e: Option<Event>) {
    counted + Owed(h') - Owed(h) == At(e, Wrote402) + At(e, UpfrontError)
  }

  lemma RefusalsSettle(env: Env, h: Handler, r: nat, free: bool, left: int, reply: Reply)
    requires Consistent(h) && (h.pc == Counting || h.pc == Refusing)
    ensures
      var h' := NextLocals(env, h, free, left, reply);
      Settles(if h.pc == Counting then |CountedReason(h')| else 0, h, h', Emitted(r, h, h'))
  {
  }

  lemma BodySettles(env: Env, h: Handler, r: nat, free: bool, left: int, reply: Reply)
    requires Consistent(h) && InBody(h.pc)
    ensures var h' := NextLocals(env, h, free, left, reply); Settles(0, h, h', Emitted(r, h, h'))
  {
  }

  lemma OthersSettle(env: Env, h: Handler, r: nat, free: bool, left: int, reply: Reply)
    requires Consistent(h) && !InBody(h.pc) && h.pc != Counting && h.pc != Refusing
    ensures var h' := NextLocals(env, h, free, left, reply); Settles(0, h, h', Emitted(r, h, h'))
  {
  }

  lemma OnlyCountingCounts(env: Env, s: State, h: Handler, h': Handler)
    ensures |NextShared(env, s, h, h').rejections| - |s.rejections| == if h.pc == Counting then |CountedReason(h')| else 0
  {
  }

  lemma TurnSettles(env: Env, s: State, r: nat, reply: Reply)
    requires r < |s.handlers| && Consistent(s.handlers[r])
    ensures
      var h, h' := s.handlers[r], TurnedLocals(env, s, r, reply);
      Settles(|Turned(env, s, r, reply).rejections| - |s.rejections|, h, h', Emitted(r, h, h'))
  {
    var h := s.handlers[r];
    var free, left := s.inflight < Slots(env), BalanceAfterDebit(env, s, h);
    OnlyCountingCounts(env, s, h, TurnedLocals(env, s, r, reply));
    if h.pc == Counting || h.pc == Refusing {
      RefusalsSettle(env, h, r, free, left, reply);
    } else if InBody(h.pc) {
      BodySettles(env, h, r, free, left, reply);
    } else {
      OthersSettle(env, h, r, free, left, reply);
    }
  }

  ghost predicate RejectionsOk(s: State) {
    |s.rejections| + Sum(s.handlers, Owed) == Tally(s.log, Wrote402) + Tally(s.log, UpfrontError)
  }

  lemma StepOnRejections(env: Env, s: State, m: Move)
    requires Locals(s) && RejectionsOk(s)
    ensures RejectionsOk(Step(env, s, m))
  {
    match m
    case Arrive(req) => SumPush(s.handlers, Fresh(req), Owed);
    case Turn(r, reply) =>
      if r < |s.handlers| {
        var h' := TurnedLocals(env, s, r, reply);
        var e := Emitted(r, s.handlers[r], h');
        TurnSettles(env, s, r, reply);
        SumUpdate(s.handlers, r, h', Owed);
        TallyAppend(s.log, e, Wrote402);
        TallyAppend(s.log, e, UpfrontError);
      }
  }

  lemma {:induction false} ExecRejections(env: Env, schedule: seq<Move>)
    ensures RejectionsOk(Exec(env, schedule))
    decreases |schedule|
  {
    if schedule != [] {
      var n := |schedule| - 1;
      ExecRejections(env, schedule[..n]);
      ExecLocals(env, schedule[..n]);
      StepOnRejections(env, Exec(env, schedule[..n]), schedule[n]);
    }
  }

  /** In every state, between counting and writing too: payment rejections are the 402s the
      middleware itself wrote plus the upfront debit errors, plus the 402s counted and not yet
      written, minus the debit errors not yet counted. */
  lemma RejectionsAreExact(env: Env, schedule: seq<Move>)
    ensures
      var s := Exec(env, schedule);
      |s.rejections| == Tally(s.log, Wrote402) + Tally(s.log, UpfrontError)
                        + Sum(s.handlers, Unwritten) - Sum(s.handlers, Uncounted)
  {
    ExecRejections(env, schedule);
    SumDifference(Exec(env, schedule).handlers);
  }

  lemma {:induction false} SumDifference(hs: seq<Handler>)
    ensures Sum(hs, Owed) == Sum(hs, Uncounted) - Sum(hs, Unwritten)
    decreases |hs|
  {
    if hs != [] {
      SumDifference(hs[..|hs| - 1]);
    }
  }

  lemma RejectionsOfDrainedWorker(env: Env, schedule: seq<Move>)
    requires var s := Exec(env, schedule); forall r :: 0 <= r < |s.handlers| ==> s.handlers[r].pc == Done
    ensures var s := Exec(env, schedule); |s.rejections| == Tally(s.log, Wrote402) + Tally(s.log, UpfrontError)
  {
    var s := Exec(env, schedule);
    ExecRejections(env, schedule);
    SumLe(s.handlers, Owed, Zero);
    SumLe(s.handlers, Zero, Owed);
    SumZero(s.handlers);
  }

  // ----- rejections, reason by reason -----

  function ReasonOf(h: Handler): Option<Reason> { RefusalOf(h).reason }

  function UncountedFor(x: Reason): Handler -> int {
    (h: Handler) => if h.pc == Counting && ReasonOf(h) == Some(x) then 1 else 0
  }

  function UnwrittenFor(x: Reason): Handler -> int {
    (h: Handler) => if h.pc == Refusing && ReasonOf(h) == Some(x) then 1 else 0
  }

  /** A refusal written for this reason. */
  function WroteFor(x: Reason): Event -> int {
    (e: Event) => if e.Wrote? && e.reason == Some(x) then 1 else 0
  }

  /** The daemon's answer that causes it; the header reasons have no such event. */
  function CausedBy(x: Reason): Event -> int {
    (e: Event) =>
      match x
      case ProcessPaymentFailed => (if e.Paid? && !e.ok then 1 else 0)
      case DebitError => (if e.Debited? && e.upfront && !e.ok then 1 else 0)
      case InsufficientBalance => (if e.Debited? && e.upfront && e.ok && e.balance < 0 then 1 else 0)
      case _ => 0
  }

  predicate FromDaemon(x: Reason) { x == ProcessPaymentFailed || x == DebitError || x == InsufficientBalance }

  function Mult(h: Handler, h': Handler, x: Reason): int {
    if h.pc == Counting && ReasonOf(h') == Some(x) then 1 else 0
  }

  /** One turn, for one reason: what it counts, what it writes and what it causes. */
  ghost predicate SettlesFor(x: Reason, h: Handler, h': Handler, e: Option<Event>) {
    && Mult(h, h', x) == UnwrittenFor(x)(h') - UnwrittenFor(x)(h) + At(e, WroteFor(x))
    && (FromDaemon(x) ==> At(e, CausedBy(x)) == Mult(h, h', x) + UncountedFor(x)(h') - UncountedFor(x)(h))
  }

  lemma ExaminingSettlesFor(env: Env, h: Handler, r: nat, free: bool, left: int, reply: Reply, x: Reason)
    requires Consistent(h) && h.pc == Examining
    ensures var h' := NextLocals(env, h, free, left, reply); SettlesFor(x, h, h', Emitted(r, h, h'))
  {
  }

  lemma CallsSettleFor(env: Env, h: Handler, r: nat, free: bool, left: int, reply: Reply, x: Reason)
    requires Consistent(h) && InBody(h.pc) && h.pc != Examining
    ensures var h' := NextLocals(env, h, free, left, reply); SettlesFor(x, h, h', Emitted(r, h, h'))
  {
  }

  lemma RefusalsSettleFor(env: Env, h: Handler, r: nat, free: bool, left: int, reply: Reply, x: Reason)
    requires Consistent(h) && (h.pc == Counting || h.pc == Refusing)
    ensures var h' := NextLocals(env, h, free, left, reply); SettlesFor(x, h, h', Emitted(r, h, h'))
  {
  }

  lemma OthersSettleFor(env: Env, h: Handler, r: nat, free: bool, left: int, reply: Reply, x: Reason)
    requires Consistent(h) && !InBody(h.pc) && h.pc != Counting && h.pc != Refusing
    ensures var h' := NextLocals(env, h, free, left, reply); SettlesFor(x, h, h', Emitted(r, h, h'))
  {
  }

  lemma TurnSettlesFor(env: Env, s: State, r: nat, reply: Reply, x: Reason)
    requires r < |s.handlers| && Consistent(s.handlers[r])
    ensures
      var h, h' := s.handlers[r], TurnedLocals(env, s, r, reply);
      && SettlesFor(x, h, h', Emitted(r, h, h'))
      && NextShared(env, s, h, h').rejections[x] == s.rejections[x] + Mult(h, h', x)
  {
    var h := s.handlers[r];
    var free, left := s.inflight < Slots(env), BalanceAfterDebit(env, s, h);
    CountedOnce(env, s, h, TurnedLocals(env, s, r, reply), x);
    if h.pc == Examining {
      ExaminingSettlesFor(env, h, r, free, left, reply, x);
    } else if InBody(h.pc) {
      CallsSettleFor(env, h, r, free, left, reply, x);
    } else if h.pc == Counting || h.pc == Refusing {
      RefusalsSettleFor(env, h, r, free, left, reply, x);
    } else {
      OthersSettleFor(env, h, r, free, left, reply, x);
    }
  }

  lemma CountedOnce(env: Env, s: State, h: Handler, h': Handler, x: Reason)
    ensures NextShared(env, s, h, h').rejections[x] == s.rejections[x] + Mult(h, h', x)
  {
  }

  ghost predicate ReasonOk(s: State, x: Reason) {
    && s.rejections[x] == Tally(s.log, WroteFor(x)) + Sum(s.handlers, UnwrittenFor(x))
    && (FromDaemon(x) ==> Tally(s.log, CausedBy(x)) == s.rejections[x] + Sum(s.handlers, UncountedFor(x)))
  }

  lemma TurnKeepsReason(env: Env, s: State, r: nat, reply: Reply, x: Reason)
    requires r < |s.handlers| && Consistent(s.handlers[r]) && ReasonOk(s, x)
    ensures ReasonOk(Turned(env, s, r, reply), x)
  {
    var h, h' := s.handlers[r], TurnedLocals(env, s, r, reply);
    var e := Emitted(r, h, h');
    TurnSettlesFor(env, s, r, reply, x);
    SumUpdate(s.handlers, r, h', UnwrittenFor(x));
    SumUpdate(s.handlers, r, h', UncountedFor(x));
    TallyAppend(s.log, e, WroteFor(x));
    TallyAppend(s.log, e, CausedBy(x));
  }

  lemma StepKeepsReason(env: Env, s: State, m: Move, x: Reason)
    requires Locals(s) && ReasonOk(s, x)
    ensures ReasonOk(Step(env, s, m), x)
  {
    match m
    case Arrive(req) =>
      SumPush(s.handlers, Fresh(req), UnwrittenFor(x));
      SumPush(s.handlers, Fresh(req), UncountedFor(x));
    case Turn(r, reply) => if r < |s.handlers| { TurnKeepsReason(env, s, r, reply, x); }
  }

  /** In every state and for every reason: the counter is the refusals written for that reason plus
      those counted and still to be written; and for the daemon's reasons, the failed payments,
      failed upfront debits and negative balances in the log are the counter plus those still to
      be counted. */
  lemma {:induction false} RejectionsByReason(env: Env, schedule: seq<Move>, x: Reason)
    ensures ReasonOk(Exec(env, schedule), x)
    decreases |schedule|
  {
    if schedule == [] {
      assert Exec(env, []) == INITIAL;
    } else {
      var n := |schedule| - 1;
      RejectionsByReason(env, schedule[..n], x);
      ExecLocals(env, schedule[..n]);
      StepKeepsReason(env, Exec(env, schedule[..n]), schedule[n], x);
    }
  }

  // ----- progress -----

  /** The most turns a handler can still need. */
  function Remaining(pc: Pc): (n: nat)
    ensures n <= 13 && (n == 0 <==> pc == Done)
  {
    match pc
    case AtGate => 13
    case Shedding => 1
    case Examining => 12
    case Opening => 11
    case Paying => 10
    case Estimating => 9
    case Debiting => 8
    case Entering => 7
    case Serving => 6
    case Metering => 5
    case Reconciling => 4
    case Counting => 5
    case Refusing => 4
    case Closing => 3
    case Reporting => 2
    case Releasing => 1
    case Done => 0
  }

  lemma {:induction false} BodyMakesProgress(env: Env, h: Handler, free: bool, left: int, reply: Reply)
    requires InBody(h.pc) && h.pc != Examining
    ensures Remaining(NextLocals(env, h, free, left, reply).pc) < Remaining(h.pc)
  {
  }

  lemma ExamineMakesProgress(env: Env, h: Handler, free: bool, left: int, reply: Reply)
    requires h.pc == Examining
    ensures Remaining(NextLocals(env, h, free, left, reply).pc) < Remaining(h.pc)
  {
  }

  lemma ServiceMakesProgress(env: Env, h: Handler, free: bool, left: int, reply: Reply)
    requires InService(h.pc)
    ensures Remaining(NextLocals(env, h, free, left, reply).pc) < Remaining(h.pc)
  {
  }

  lemma {:induction false} EdgeMakesProgress(env: Env, h: Handler, free: bool, left: int, reply: Reply)
    requires !InBody(h.pc) && !InService(h.pc) && h.pc != Done
    ensures Remaining(NextLocals(env, h, free, left, reply).pc) < Remaining(h.pc)
  {
  }

  lemma TurnMakesProgress(env: Env, h: Handler, free: bool, left: int, reply: Reply)
    ensures var pc := NextLocals(env, h, free, left, reply).pc;
            if h.pc == Done then pc == Done else Remaining(pc) < Remaining(h.pc)
  {
    if h.pc == Examining {
      ExamineMakesProgress(env, h, free, left, reply);
    } else if InBody(h.pc) {
      BodyMakesProgress(env, h, free, left, reply);
    } else if InService(h.pc) {
      ServiceMakesProgress(env, h, free, left, reply);
    } else if h.pc != Done {
      EdgeMakesProgress(env, h, free, left, reply);
    }
  }

  lemma {:induction false} TurnsCountDown(env: Env, s: State, schedule: seq<Move>, r: nat)
    requires r < |s.handlers|
    ensures
      var s' := ExecFrom(env, s, schedule);
      && r < |s'.handlers|
      && (Remaining(s'.handlers[r].pc) + TurnsOf(schedule, r) <= Remaining(s.handlers[r].pc)
          || s'.handlers[r].pc == Done)
    decreases |schedule|
  {
    if schedule != [] {
      var n := |schedule| - 1;
      TurnsCountDown(env, s, schedule[..n], r);
      var t := ExecFrom(env, s, schedule[..n]);
      match schedule[n]
      case Arrive(_) =>
      case Turn(q, reply) =>
        if q == r {
          var h := t.handlers[r];
          TurnMakesProgress(env, h, t.inflight < Slots(env), BalanceAfterDebit(env, t, h), reply);
        }
    }
  }

  /** No step waits for another request: from any state, thirteen turns of its own bring a
      request to its end, however the others are scheduled and whatever fails. */
  lemma EveryRequestFinishes(env: Env, s: State, schedule: seq<Move>, r: nat)
    requires r < |s.handlers| && TurnsOf(schedule, r) >= 13
    ensures r < |ExecFrom(env, s, schedule).handlers| && ExecFrom(env, s, schedule).handlers[r].pc == Done
  {
    TurnsCountDown(env, s, schedule, r);
  }
}
