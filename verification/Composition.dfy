/** What the pieces promise together: a validated catalog under the payment pipeline, and the
    streaming relay's outcome under its reconcile rule. */
module Composition {
  import opened Go
  import opened Ledger
  import opened PaidRequest
  import opened PaidRequestTrace
  import opened PaidRequestCounts
  import Catalog
  import Codecs
  import Relay

  // ----- a validated catalog leaves no internal error -----

  /** What the middleware writes by itself under a validated catalog; 503 is for shed requests. */
  const OWN_STATUSES: set<nat> := {400, 402, 404, 502, 503}

  ghost predicate Validated(env: Env, cs: seq<Catalog.YamlCapability>, urlOk: string -> bool) {
    Catalog.GoodCapabilities(cs, urlOk) && env.config == Catalog.NewConfig(Catalog.Project(cs))
  }

  /** An offering of the catalog that a session was opened for, at its own positive price. */
  ghost predicate Offered(env: Env, session: Session) {
    exists i, j :: OfferedAt(env.config.ordered, session, i, j)
  }

  ghost predicate OfferedAt(ordered: seq<Catalog.CapabilityEntry>, session: Session, i: int, j: int) {
    && Catalog.Matches(ordered, Catalog.RouteKey(session.capability, session.offering), i, j)
    && ordered[i].workUnit == session.workUnit
    && Codecs.ParseDecimal(ordered[i].offerings[j].price) == Some(session.price)
    && session.price > 0
  }

  lemma ValidatedExamination(env: Env, cs: seq<Catalog.YamlCapability>, urlOk: string -> bool, req: Request)
    requires Validated(env, cs, urlOk)
    ensures
      match Examine(env, req)
      case Refused(refusal, _) => refusal.status in OWN_STATUSES
      case Ready(_, session) => Offered(env, session)
  {
    if req.model.Some? && Catalog.Lookup(env.config, req.capability, req.model.value).Some? {
      var model := req.model.value;
      var key := Catalog.RouteKey(req.capability, model);
      Catalog.ValidatedPriceParses(cs, urlOk, req.capability, model);
      Catalog.LookupIsLastMatch(env.config.ordered, key);
      var i, j :| Catalog.Matches(env.config.ordered, key, i, j);
      Catalog.ValidatedLookupIsUniqueMatch(cs, urlOk, key, i, j);
      match Examine(env, req)
      case Refused(_, _) =>
      case Ready(_, session) => assert OfferedAt(env.config.ordered, session, i, j);
    }
  }

  ghost predicate Clean(env: Env, h: Handler) {
    && (h.tail.refusal.Some? ==> h.tail.refusal.value.status in OWN_STATUSES)
    && (h.pc == Opening ==> Offered(env, h.session))
  }

  ghost predicate CleanEvent(env: Env, e: Event) {
    && (e.Wrote? ==> e.status in OWN_STATUSES)
    && (e.Opened? ==> Offered(env, e.session))
  }

  lemma TurnStaysClean(env: Env, cs: seq<Catalog.YamlCapability>, urlOk: string -> bool, r: nat, h: Handler,
                       free: bool, left: int, reply: Reply)
    requires Validated(env, cs, urlOk) && Consistent(h) && Clean(env, h)
    ensures
      var h' := NextLocals(env, h, free, left, reply);
      Clean(env, h') && (Emitted(r, h, h').Some? ==> CleanEvent(env, Emitted(r, h, h').value))
  {
    if h.pc == Examining {
      ValidatedExamination(env, cs, urlOk, h.req);
    }
  }

  ghost predicate CleanState(env: Env, s: State) {
    && (forall r :: 0 <= r < |s.handlers| ==> Clean(env, s.handlers[r]))
    && forall i :: 0 <= i < |s.log| ==> CleanEvent(env, s.log[i])
  }

  lemma OneMoreClean(env: Env, s: State, s': State, r: nat, h': Handler, e: Option<Event>)
    requires r < |s.handlers| && s'.handlers == s.handlers[r := h'] && s'.log == Append(s.log, e)
    requires CleanState(env, s) && Clean(env, h') && (e.Some? ==> CleanEvent(env, e.value))
    ensures CleanState(env, s')
  {
  }

  lemma StepStaysClean(env: Env, cs: seq<Catalog.YamlCapability>, urlOk: string -> bool, s: State, m: Move)
    requires Validated(env, cs, urlOk) && Locals(s) && CleanState(env, s)
    ensures CleanState(env, Step(env, s, m))
  {
    match m
    case Arrive(_) =>
    case Turn(r, reply) =>
      if r < |s.handlers| {
        var h, h' := s.handlers[r], TurnedLocals(env, s, r, reply);
        TurnStaysClean(env, cs, urlOk, r, h, s.inflight < Slots(env), BalanceAfterDebit(env, s, h), reply);
        OneMoreClean(env, s, Step(env, s, m), r, h', Emitted(r, h, h'));
      }
  }

  lemma {:induction false} ExecClean(env: Env, cs: seq<Catalog.YamlCapability>, urlOk: string -> bool, schedule: seq<Move>)
    requires Validated(env, cs, urlOk)
    ensures CleanState(env, Exec(env, schedule))
    decreases |schedule|
  {
    if schedule == [] {
      assert Exec(env, schedule) == INITIAL;
    } else {
      var n := |schedule| - 1;
      ExecClean(env, cs, urlOk, schedule[..n]);
      ExecLocals(env, schedule[..n]);
      StepStaysClean(env, cs, urlOk, Exec(env, schedule[..n]), schedule[n]);
    }
  }

  /** Under a validated catalog, whatever the schedule: the middleware itself only ever writes
      400, 402, 404, 502 or 503, so its internal-error answer for an unusable price is never given, and
      every session opened at the daemon is for an offering of the catalog at that offering's
      positive price. */
  lemma NoInternalError(env: Env, cs: seq<Catalog.YamlCapability>, urlOk: string -> bool, schedule: seq<Move>, i: nat)
    requires Validated(env, cs, urlOk) && i < |Exec(env, schedule).log|
    ensures
      var e := Exec(env, schedule).log[i];
      && (e.Wrote? ==> e.status in OWN_STATUSES)
      && (e.Opened? ==> Offered(env, e.session))
  {
    ExecClean(env, cs, urlOk, schedule);
    assert CleanEvent(env, Exec(env, schedule).log[i]);
  }

  // ----- a relayed stream under the reconcile rule -----

  /** Request r finished, and its Serve call was a relay of these lines that ended like this. */
  ghost predicate ServedByRelay(s: State, r: nat, lines: seq<Bytes>, broken: bool, n: nat, usageOf: Relay.UsageReader,
                                output: Bytes, err: Relay.RelayError) {
    && r < |s.handlers| && n <= |lines|
    && s.handlers[r].pc == Done
    && s.handlers[r].work.served == Some(err == Relay.NoError)
    && Relay.Promise(lines, broken, n, usageOf, output, s.handlers[r].work.actual, err)
  }

  /** A stream that did not reach the client whole. */
  predicate Interrupted(lines: seq<Bytes>, broken: bool, n: nat) { n < |lines| || broken }

  /** The charge for a relayed stream, from the stream's own data: an interrupted stream costs
      exactly the estimate debited upfront, whatever usage it carried; a complete one costs its
      last usage when that is above the estimate and the reconcile went through. */
  lemma StreamCharge(env: Env, schedule: seq<Move>, r: nat, lines: seq<Bytes>, broken: bool, n: nat,
                     usageOf: Relay.UsageReader, output: Bytes, err: Relay.RelayError)
    requires ServedByRelay(Exec(env, schedule), r, lines, broken, n, usageOf, output, err)
    ensures
      var s := Exec(env, schedule);
      var h := s.handlers[r];
      var charge := Charged(Trace(s.log, r));
      var usage := Relay.UsageToUnits(Relay.LastUsage(lines[..n], usageOf));
      if Interrupted(lines, broken, n) then charge == h.pay.estimate && h.work.reconciled.None?
      else charge == if usage > h.pay.estimate && h.work.reconciled == Some(true) then usage else h.pay.estimate
  {
    FinishedCharge(env, schedule, r);
    ExecLocals(env, schedule);
    var h := Exec(env, schedule).handlers[r];
    assert Consistent(h);
    Relay.UnitsAreUnique(lines[..n], usageOf, h.work.actual);
  }

  /** The documented rule for a stream cut short: it is reconciled like any other, so that usage
      seen beyond the estimate is charged. */
  predicate ReconciledAnyway(charge: int, estimate: int, usage: int) {
    charge == if usage > estimate then usage else estimate
  }

  /** An interrupted stream meets that rule if and only if the usage it had shown does not
      exceed the estimate: the error return comes before the reconcile step. */
  lemma InterruptedReconcilesIff(env: Env, schedule: seq<Move>, r: nat, lines: seq<Bytes>, broken: bool, n: nat,
                                 usageOf: Relay.UsageReader, output: Bytes, err: Relay.RelayError)
    requires ServedByRelay(Exec(env, schedule), r, lines, broken, n, usageOf, output, err)
    requires Interrupted(lines, broken, n)
    ensures
      var s := Exec(env, schedule);
      var usage := Relay.UsageToUnits(Relay.LastUsage(lines[..n], usageOf));
      ReconciledAnyway(Charged(Trace(s.log, r)), s.handlers[r].pay.estimate, usage) <==> usage <= s.handlers[r].pay.estimate
  {
    StreamCharge(env, schedule, r, lines, broken, n, usageOf, output, err);
  }

  // ----- and such runs exist -----

  /** One more turn of a lone request. */
  lemma AndTurn(env: Env, schedule: seq<Move>, s: State, reply: Reply) returns (longer: seq<Move>, s': State)
    requires Recorded(env, schedule, s) && |s.handlers| == 1
    ensures Recorded(env, longer, s') && s' == Turned(env, s, 0, reply)
  {
    assert Look(true);
    longer, s' := schedule + [Turn(0, reply)], Turned(env, s, 0, reply);
    assert longer[..|schedule|] == schedule;
  }

  function Answer(ok: bool, credit: int, units: int64): Reply {
    Reply(ok, [], credit, units, Some(200), CtxErr.NoError)
  }

  /** A single request on an otherwise idle worker is about to take this step. */
  ghost predicate Alone(s: State, pc: Pc) { |s.handlers| == 1 && s.handlers[0].pc == pc }

  ghost predicate FailedAt(h: Handler, e: int64, u: int64) {
    h.work.served == Some(false) && h.pay.estimate == e && h.work.actual == u
  }

  lemma RunToGate(env: Env, req: Request) returns (schedule: seq<Move>, s: State)
    ensures Recorded(env, schedule, s) && s == INITIAL.(handlers := [Fresh(req)])
  {
    schedule, s := [Arrive(req)], INITIAL.(handlers := [Fresh(req)]);
    assert schedule[..0] == [];
    assert Exec(env, []) == INITIAL;
    assert INITIAL.handlers + [Fresh(req)] == [Fresh(req)];
  }

  lemma RunToExamine(env: Env, req: Request) returns (schedule: seq<Move>, s: State)
    ensures Recorded(env, schedule, s) && Alone(s, Examining) && s.handlers[0].req == req && s.balances == map[]
  {
    schedule, s := RunToGate(env, req);
    schedule, s := AndTurn(env, schedule, s, Answer(true, 0, 0));
  }

  lemma RunToOpen(env: Env, req: Request) returns (schedule: seq<Move>, s: State)
    requires Examine(env, req).Ready?
    ensures Recorded(env, schedule, s) && Alone(s, Opening) && s.balances == map[]
  {
    schedule, s := RunToExamine(env, req);
    schedule, s := AndTurn(env, schedule, s, Answer(true, 0, 0));
  }

  lemma RunToPay(env: Env, req: Request) returns (schedule: seq<Move>, s: State)
    requires Examine(env, req).Ready?
    ensures Recorded(env, schedule, s) && Alone(s, Paying) && s.balances == map[]
  {
    schedule, s := RunToOpen(env, req);
    schedule, s := AndTurn(env, schedule, s, Answer(true, 0, 0));
  }

  lemma RunToEstimate(env: Env, req: Request, credit: int) returns (schedule: seq<Move>, s: State)
    requires Examine(env, req).Ready?
    ensures Recorded(env, schedule, s) && Alone(s, Estimating) && Balance(s.balances, AccountOf(s.handlers[0])) == credit
  {
    schedule, s := RunToPay(env, req);
    schedule, s := AndTurn(env, schedule, s, Answer(true, credit, 0));
  }

  lemma RunToDebit(env: Env, req: Request, e: int64) returns (schedule: seq<Move>, s: State)
    requires Examine(env, req).Ready? && e >= 0
    ensures Recorded(env, schedule, s) && Alone(s, Debiting) && s.handlers[0].pay.estimate == e
            && Balance(s.balances, AccountOf(s.handlers[0])) == env.rate * e
  {
    schedule, s := RunToEstimate(env, req, env.rate * e);
    schedule, s := AndTurn(env, schedule, s, Answer(true, 0, e));
  }

  lemma RunToEnter(env: Env, req: Request, e: int64) returns (schedule: seq<Move>, s: State)
    requires Examine(env, req).Ready? && e >= 0
    ensures Recorded(env, schedule, s) && Alone(s, Entering) && s.handlers[0].pay.estimate == e
  {
    schedule, s := RunToDebit(env, req, e);
    assert DebitUnits(s.handlers[0]) == e;
    schedule, s := AndTurn(env, schedule, s, Answer(true, 0, 0));
  }

  lemma RunToServe(env: Env, req: Request, e: int64) returns (schedule: seq<Move>, s: State)
    requires Examine(env, req).Ready? && e >= 0
    ensures Recorded(env, schedule, s) && Alone(s, Serving) && s.handlers[0].pay.estimate == e
  {
    schedule, s := RunToEnter(env, req, e);
    schedule, s := AndTurn(env, schedule, s, Answer(true, 0, 0));
  }

  lemma RunToClose(env: Env, req: Request, e: int64, u: int64) returns (schedule: seq<Move>, s: State)
    requires Examine(env, req).Ready? && e >= 0
    ensures Recorded(env, schedule, s) && Alone(s, Closing) && FailedAt(s.handlers[0], e, u)
  {
    schedule, s := RunToServe(env, req, e);
    schedule, s := AndTurn(env, schedule, s, Answer(false, 0, u));
  }

  lemma RunToReport(env: Env, req: Request, e: int64, u: int64) returns (schedule: seq<Move>, s: State)
    requires Examine(env, req).Ready? && e >= 0
    ensures Recorded(env, schedule, s) && Alone(s, Reporting) && FailedAt(s.handlers[0], e, u)
  {
    schedule, s := RunToClose(env, req, e, u);
    schedule, s := AndTurn(env, schedule, s, Answer(true, 0, 0));
  }

  lemma RunToRelease(env: Env, req: Request, e: int64, u: int64) returns (schedule: seq<Move>, s: State)
    requires Examine(env, req).Ready? && e >= 0
    ensures Recorded(env, schedule, s) && Alone(s, Releasing) && FailedAt(s.handlers[0], e, u)
  {
    schedule, s := RunToReport(env, req, e, u);
    schedule, s := AndTurn(env, schedule, s, Answer(true, 0, 0));
  }

  /** Paid for with e units, broken off in Serve after u were seen. */
  lemma RunInterrupted(env: Env, req: Request, e: int64, u: int64) returns (schedule: seq<Move>, s: State)
    requires Examine(env, req).Ready? && e >= 0
    ensures Recorded(env, schedule, s) && Alone(s, Done) && FailedAt(s.handlers[0], e, u)
  {
    schedule, s := RunToRelease(env, req, e, u);
    schedule, s := AndTurn(env, schedule, s, Answer(true, 0, 0));
  }

  /** The documented rule fails for every admissible request and every stream whose last usage
      is above the estimate: when the backend breaks off after that stream, the run charges the
      estimate and not the usage. */
  lemma InterruptedUndercharges(env: Env, req: Request, e: int64, stream: Bytes, usageOf: Relay.UsageReader)
    returns (schedule: seq<Move>)
    requires Examine(env, req).Ready? && e >= 0
    requires Relay.UsageToUnits(Relay.LastUsage(Relay.Lines(stream), usageOf)) > e
    ensures
      var s, lines := Exec(env, schedule), Relay.Lines(stream);
      var usage := Relay.UsageToUnits(Relay.LastUsage(lines, usageOf));
      && ServedByRelay(s, 0, lines, true, |lines|, usageOf, stream, Relay.StreamBroken)
      && Charged(Trace(s.log, 0)) == e
      && !ReconciledAnyway(Charged(Trace(s.log, 0)), e, usage)
  {
    var lines := Relay.Lines(stream);
    var usage := Relay.UsageToUnits(Relay.LastUsage(lines, usageOf));
    var s;
    schedule, s := RunInterrupted(env, req, e, usage);
    assert Look(true);
    Relay.LinesAreFramed(stream);
    Relay.StreamEnds(lines, true, usageOf);
    StreamCharge(env, schedule, 0, lines, true, |lines|, usageOf, stream, Relay.StreamBroken);
  }
}
