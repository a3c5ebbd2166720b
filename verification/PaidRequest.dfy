/** The paid-request pipeline as a concurrent machine. Any number of request handlers take
    turns, one shared-memory action at a time, against one semaphore, one payee ledger and one
    set of counters. A schedule says who moves next and what the outside world answers, so a
    statement about every schedule is a statement about every interleaving and every pattern
    of failures. */
module PaidRequest {
  import opened Go
  import opened Ledger
  import Codecs
  import Catalog

  // ----- what a handler is configured with and what it is given -----

  datatype Env = Env(hash: Hash, rate: int, maxConcurrent: int, config: Catalog.Config)

  /** The semaphore's capacity: a non-positive setting falls back to one slot. */
  function Slots(env: Env): (n: nat)
    ensures n >= 1
  {
    if env.maxConcurrent <= 0 then 1 else env.maxConcurrent
  }

  datatype Header = Missing | NotBase64 | Payment(blob: Bytes)

  /** A request as its decoders see it: body reading, base64 and model extraction are library
      code, here reduced to the value they yield or the fact that they fail. */
  datatype Request = Request(capability: string, bodyOk: bool, header: Header, model: Option<string>)

  datatype Reason = HeaderMissing | HeaderInvalid | ProcessPaymentFailed | DebitError | InsufficientBalance

  datatype Refusal = Refusal(status: nat, reason: Option<Reason>)

  datatype Session = Session(workID: string, capability: string, offering: string, price: int, workUnit: string)

  const NO_SESSION := Session("", "", "", 0, "")

  datatype Intake = Refused(refusal: Refusal, modelLabel: string) | Ready(model: string, session: Session)

  const UNSET := "_unset_"

  /** Steps 1 to 5 of the pipeline, up to the OpenSession call; nothing here is shared. */
  function Examine(env: Env, req: Request): Intake {
    if !req.bodyOk then Refused(Refusal(400, None), UNSET)
    else if req.header.Missing? then Refused(Refusal(402, Some(HeaderMissing)), UNSET)
    else if req.header.NotBase64? then Refused(Refusal(402, Some(HeaderInvalid)), UNSET)
    else if req.model.None? then Refused(Refusal(400, None), UNSET)
    else
      var model := req.model.value;
      match Catalog.Lookup(env.config, req.capability, model)
      case None => Refused(Refusal(404, None), model)
      case Some(route) =>
        var workID := DeriveWorkID(env.hash, req.header.blob);
        match Codecs.ParseDecimal(route.price)
        case None => Refused(Refusal(500, None), model)
        case Some(price) => Ready(model, Session(workID, route.capability, route.model, price, route.workUnit))
  }

  predicate Readable(req: Request) { req.bodyOk && req.header.Payment? && req.model.Some? }

  function KeyOf(req: Request): Catalog.RouteKey
    requires Readable(req)
  {
    Catalog.RouteKey(req.capability, req.model.value)
  }

  predicate RefusedWith(intake: Intake, status: nat, reason: Option<Reason>) {
    intake.Refused? && intake.refusal == Refusal(status, reason)
  }

  /** Which requests meet which answer, told by the request and by a scan of the catalog. The 402s
      are the readable bodies without a usable payment header; the 404s are the requests that no
      offering matches; a request with a match is admitted, under the work id of its blob and
      the terms of the last matching offering, unless that offering's price is not a number. The
      metric label is the model exactly when the request got far enough to name one. */
  lemma IntakeMeaning(env: Env, req: Request)
    requires env.config == Catalog.NewConfig(env.config.ordered)
    ensures
      var intake, ordered := Examine(env, req), env.config.ordered;
      && (RefusedWith(intake, 400, None) <==> !req.bodyOk || (req.header.Payment? && req.model.None?))
      && (RefusedWith(intake, 402, Some(HeaderMissing)) <==> req.bodyOk && req.header.Missing?)
      && (RefusedWith(intake, 402, Some(HeaderInvalid)) <==> req.bodyOk && req.header.NotBase64?)
      && (RefusedWith(intake, 404, None) <==>
            Readable(req) && forall i, j :: !Catalog.Matches(ordered, KeyOf(req), i, j))
      && (Readable(req) ==> forall i, j :: Catalog.LastMatch(ordered, KeyOf(req), i, j) ==>
            match Codecs.ParseDecimal(ordered[i].offerings[j].price)
            case None => RefusedWith(intake, 500, None)
            case Some(price) =>
              intake == Ready(req.model.value,
                              Session(DeriveWorkID(env.hash, req.header.blob), req.capability, req.model.value,
                                      price, ordered[i].workUnit)))
      && (intake.Refused? ==> intake.modelLabel == if Readable(req) then req.model.value else UNSET)
  {
    if Readable(req) {
      Catalog.LookupIsLastMatch(env.config.ordered, KeyOf(req));
    }
  }

  // ----- outcomes -----

  datatype CtxErr = NoError | Canceled | DeadlineExceeded | OtherError

  datatype Outcome = Outcome2xx | Outcome402 | Outcome4xx | Outcome5xx | OutcomeCanceled

  predicate Gone(ctx: CtxErr) { ctx == Canceled || ctx == DeadlineExceeded }

  /** Each bucket, told by what falls into it: a context that ended comes first, 402 is apart
      from the other 4xx, and every status outside the named ranges, or none, is a 5xx. */
  function ClassifyOutcome(ctx: CtxErr, status: nat): (outcome: Outcome)
    ensures outcome == OutcomeCanceled <==> Gone(ctx)
    ensures outcome == Outcome2xx <==> !Gone(ctx) && 200 <= status < 300
    ensures outcome == Outcome402 <==> !Gone(ctx) && status == 402
    ensures outcome == Outcome4xx <==> !Gone(ctx) && status != 402 && 400 <= status < 500
  {
    if ctx == Canceled || ctx == DeadlineExceeded then OutcomeCanceled
    else if 200 <= status < 300 then Outcome2xx
    else if status == 402 then Outcome402
    else if 400 <= status < 500 then Outcome4xx
    else Outcome5xx
  }

  // ----- state -----

  datatype Label = Label(capability: string, model: string)

  /** Program counter of one handler. The last four are the tail of the pipeline: the deferred
      CloseSession, the deferred request metric, the deferred slot release, and the end. */
  datatype Pc =
    | AtGate | Shedding | Examining | Opening | Paying | Estimating | Debiting | Entering | Serving
    | Metering | Reconciling | Counting | Refusing | Closing | Reporting | Releasing | Done

  /** What the daemon and the estimator answered on the way to Serve. An optional field, here and
      below, is None until its step has run. */
  datatype Pay = Pay(
    openOk: Option<bool>,
    paid: Option<bool>,
    sender: Bytes,
    credit: int,
    estimate: int64,
    debited: Option<bool>,
    balance0: int)

  /** Serve, the metric and the reconciling debit. */
  datatype Work = Work(
    entered: bool,
    served: Option<bool>,
    actual: int64,
    metered: bool,
    reconciled: Option<bool>,
    balance: int)

  /** The refusal, if any, and the deferred functions. */
  datatype Tail = Tail(
    refusal: Option<Refusal>,
    wrote: bool,
    status: Option<nat>,
    closed: Option<bool>,
    ctx: CtxErr,              // what the context said when the outcome was classified
    reported: Option<Outcome>,
    released: bool)

  /** Locals of one handler. */
  datatype Handler = Handler(
    req: Request,
    pc: Pc,
    modelLabel: string,
    session: Session,
    slot: Option<bool>,
    pay: Pay,
    work: Work,
    tail: Tail)

  const NO_PAY := Pay(None, None, [], 0, 0, None, 0)
  const NO_WORK := Work(false, None, 0, false, None, 0)
  const NO_TAIL := Tail(None, false, None, None, NoError, None, false)

  function Fresh(req: Request): Handler {
    Handler(req, AtGate, UNSET, NO_SESSION, None, NO_PAY, NO_WORK, NO_TAIL)
  }

  function AccountOf(h: Handler): Account { Account(h.pay.sender, h.session.workID) }

  function LabelOf(h: Handler): Label { Label(h.req.capability, h.modelLabel) }

  /** One observable action; r is the handler that performed it. */
  datatype Event =
    | Acquired(r: nat)
    | Shed(r: nat)
    | Opened(r: nat, session: Session, ok: bool)
    | Paid(r: nat, account: Account, credit: int, ok: bool)
    | Debited(r: nat, account: Account, units: int, upfront: bool, ok: bool, balance: int)
    | Entered(r: nat)
    | Served(r: nat, ok: bool, actual: int)
    | Metered(r: nat, tag: Label, units: int)
    | Wrote(r: nat, status: nat, reason: Option<Reason>)
    | Closed(r: nat, account: Account, ok: bool)
    | Reported(r: nat, tag: Label, outcome: Outcome, ctx: CtxErr)
    | Released(r: nat)

  datatype State = State(
    handlers: seq<Handler>,
    inflight: int,
    balances: map<string, int>,
    workUnits: map<Label, int>,
    requests: multiset<(Label, Outcome)>,
    rejections: multiset<Reason>,
    shed: nat,
    log: seq<Event>)

  const INITIAL := State([], 0, map[], map[], multiset{}, multiset{}, 0, [])

  function Units(m: map<Label, int>, tag: Label): int {
    if tag in m then m[tag] else 0
  }

  // ----- moves -----

  /** What the outside world answers during one turn; a step reads the fields it needs. */
  datatype Reply = Reply(ok: bool, sender: Bytes, credit: int, units: int64, status: Option<nat>, ctx: CtxErr)

  datatype Move = Arrive(req: Request) | Turn(r: nat, reply: Reply)

  /** Where the body goes when it returns: a deferred CloseSession exists once payment is in, and
      a request that was shed has nothing deferred at all. */
  function Unwind(h: Handler): Pc {
    if h.slot == Some(false) then Shedding else if h.pay.paid == Some(true) then Closing else Reporting
  }

  /** A refusal is written; one with a rejection reason is counted first, in a step of its own. */
  function Refuse(h: Handler, status: nat, reason: Option<Reason>): Handler {
    h.(tail := h.tail.(refusal := Some(Refusal(status, reason))), pc := if reason.Some? then Counting else Refusing)
  }

  function RefusalOf(h: Handler): Refusal {
    if h.tail.refusal.Some? then h.tail.refusal.value else Refusal(0, None)
  }

  function OutcomeOf(h: Handler): Outcome {
    if h.tail.reported.Some? then h.tail.reported.value else Outcome5xx
  }

  function StatusOf(h: Handler): nat {
    if h.tail.status.Some? then h.tail.status.value else 0
  }

  /** The units the turn of h at a debit asks for: the estimate first, then the excess. */
  function DebitUnits(h: Handler): int {
    if h.pc == Debiting then h.pay.estimate else h.work.actual - h.pay.estimate
  }

  /** The account's balance once the debit that h is about to make has been taken. */
  function BalanceAfterDebit(env: Env, s: State, h: Handler): int {
    Balance(s.balances, AccountOf(h)) - env.rate * DebitUnits(h)
  }

  /** The locals of a handler after one turn, given what it saw of the shared state. */
  function NextLocals(env: Env, h: Handler, slotFree: bool, left: int, reply: Reply): Handler {
    match h.pc
    case AtGate =>
      if slotFree then h.(slot := Some(true), pc := Examining)
      else Refuse(h.(slot := Some(false)), 503, None)
    case Shedding => h.(tail := h.tail.(reported := Some(Outcome5xx)), pc := Done)
    case Examining =>
      (match Examine(env, h.req)
       case Refused(refusal, tag) => Refuse(h.(modelLabel := tag), refusal.status, refusal.reason)
       case Ready(model, session) => h.(modelLabel := model, session := session, pc := Opening))
    case Opening =>
      if reply.ok then h.(pay := h.pay.(openOk := Some(true)), pc := Paying)
      else Refuse(h.(pay := h.pay.(openOk := Some(false))), 502, None)
    case Paying =>
      if reply.ok then
        h.(pay := h.pay.(paid := Some(true), sender := reply.sender, credit := reply.credit), pc := Estimating)
      else Refuse(h.(pay := h.pay.(paid := Some(false))), 402, Some(ProcessPaymentFailed))
    case Estimating =>
      if reply.ok then h.(pay := h.pay.(estimate := if reply.units < 0 then 0 else reply.units), pc := Debiting)
      else Refuse(h, 400, None)
    case Debiting =>
      if !reply.ok then Refuse(h.(pay := h.pay.(debited := Some(false))), 502, Some(DebitError))
      else
        var pay := h.pay.(debited := Some(true), balance0 := left);
        if left < 0 then Refuse(h.(pay := pay), 402, Some(InsufficientBalance)) else h.(pay := pay, pc := Entering)
    case Entering => h.(work := h.work.(entered := true), pc := Serving)
    case Serving =>
      h.(work := h.work.(served := Some(reply.ok), actual := reply.units), tail := h.tail.(status := reply.status),
         pc := if reply.ok then Metering else Closing)
    case Metering =>
      h.(work := h.work.(metered := h.work.actual > 0),
         pc := if h.work.actual > h.pay.estimate then Reconciling else Closing)
    case Reconciling =>
      h.(work := h.work.(reconciled := Some(reply.ok), balance := if reply.ok then left else h.work.balance),
         pc := Closing)
    case Counting => h.(pc := Refusing)
    case Refusing =>
      h.(tail := h.tail.(wrote := true, status := Some(RefusalOf(h).status)), pc := Unwind(h))
    case Closing => h.(tail := h.tail.(closed := Some(reply.ok)), pc := Reporting)
    case Reporting =>
      h.(tail := h.tail.(ctx := reply.ctx, reported := Some(ClassifyOutcome(reply.ctx, StatusOf(h)))), pc := Releasing)
    case Releasing => h.(tail := h.tail.(released := true), pc := Done)
    case Done => h
  }

  /** What the outside sees of the turn that took the locals from h to h'. */
  function Emitted(r: nat, h: Handler, h': Handler): (e: Option<Event>)
    ensures e.Some? ==> e.value.r == r
  {
    match h.pc
    case AtGate => Some(if h'.slot == Some(true) then Acquired(r) else Shed(r))
    case Opening => Some(Opened(r, h'.session, h'.pay.openOk == Some(true)))
    case Paying => Some(Paid(r, AccountOf(h'), h'.pay.credit, h'.pay.paid == Some(true)))
    case Debiting => Some(Debited(r, AccountOf(h'), h'.pay.estimate, true, h'.pay.debited == Some(true), h'.pay.balance0))
    case Entering => Some(Entered(r))
    case Serving => Some(Served(r, h'.work.served == Some(true), h'.work.actual))
    case Metering => if h'.work.metered then Some(Metered(r, LabelOf(h'), h'.work.actual)) else None
    case Reconciling =>
      Some(Debited(r, AccountOf(h'), h'.work.actual - h'.pay.estimate, false, h'.work.reconciled == Some(true), h'.work.balance))
    case Refusing => Some(Wrote(r, RefusalOf(h').status, RefusalOf(h').reason))
    case Closing => Some(Closed(r, AccountOf(h'), h'.tail.closed == Some(true)))
    case Shedding => Some(Reported(r, LabelOf(h'), OutcomeOf(h'), h'.tail.ctx))
    case Reporting => Some(Reported(r, LabelOf(h'), OutcomeOf(h'), h'.tail.ctx))
    case Releasing => Some(Released(r))
    case _ => None
  }

  function Append(log: seq<Event>, e: Option<Event>): seq<Event> {
    if e.Some? then log + [e.value] else log
  }

  function CountedReason(h: Handler): multiset<Reason> {
    var reason := RefusalOf(h).reason;
    if reason.Some? then multiset{reason.value} else multiset{}
  }

  /** What the turn does to the semaphore, the ledger and the counters. */
  function NextShared(env: Env, s: State, h: Handler, h': Handler): State {
    match h.pc
    case AtGate =>
      if h'.slot == Some(true) then s.(inflight := s.inflight + 1) else s.(shed := s.shed + 1)
    case Paying =>
      if h'.pay.paid == Some(true) then s.(balances := Adjust(s.balances, AccountOf(h'), h'.pay.credit)) else s
    case Debiting =>
      if h'.pay.debited == Some(true) then s.(balances := Adjust(s.balances, AccountOf(h'), -(env.rate * DebitUnits(h))))
      else s
    case Metering =>
      var tag := LabelOf(h');
      if h'.work.metered then s.(workUnits := s.workUnits[tag := Units(s.workUnits, tag) + h'.work.actual]) else s
    case Reconciling =>
      if h'.work.reconciled == Some(true) then s.(balances := Adjust(s.balances, AccountOf(h'), -(env.rate * DebitUnits(h))))
      else s
    case Counting => s.(rejections := s.rejections + CountedReason(h'))
    case Shedding => s.(requests := s.requests + multiset{(LabelOf(h'), OutcomeOf(h'))})
    case Reporting => s.(requests := s.requests + multiset{(LabelOf(h'), OutcomeOf(h'))})
    case Releasing => s.(inflight := s.inflight - 1)
    case _ => s
  }

  function TurnedLocals(env: Env, s: State, r: nat, reply: Reply): Handler
    requires r < |s.handlers|
  {
    var h := s.handlers[r];
    NextLocals(env, h, s.inflight < Slots(env), BalanceAfterDebit(env, s, h), reply)
  }

  function Turned(env: Env, s: State, r: nat, reply: Reply): State
    requires r < |s.handlers|
  {
    var h := s.handlers[r];
    var h' := TurnedLocals(env, s, r, reply);
    NextShared(env, s, h, h').(handlers := s.handlers[r := h'], log := Append(s.log, Emitted(r, h, h')))
  }

  /** One move. A turn of a handler that does not exist, or that has finished, changes nothing. */
  function Step(env: Env, s: State, m: Move): State {
    match m
    case Arrive(req) => s.(handlers := s.handlers + [Fresh(req)])
    case Turn(r, reply) => if r < |s.handlers| then Turned(env, s, r, reply) else s
  }

  function ExecFrom(env: Env, s: State, schedule: seq<Move>): State {
    if schedule == [] then s
    else Step(env, ExecFrom(env, s, schedule[..|schedule| - 1]), schedule[|schedule| - 1])
  }

  /** The state after a whole schedule; its prefixes give every intermediate state. */
  function Exec(env: Env, schedule: seq<Move>): State {
    ExecFrom(env, INITIAL, schedule)
  }

  predicate Look(b: bool) { b }

  /** s is the state after the history. Stated under a quantifier so that a proof unrolls the
      run only where it asks to Look. */
  ghost predicate Recorded(env: Env, history: seq<Move>, s: State) {
    forall b :: Look(b) ==> s == Exec(env, history)
  }

  /** How often a schedule lets r move. */
  function TurnsOf(schedule: seq<Move>, r: nat): nat {
    if schedule == [] then 0
    else
      var m := schedule[|schedule| - 1];
      TurnsOf(schedule[..|schedule| - 1], r) + if m.Turn? && m.r == r then 1 else 0
  }

  // ----- reading the log -----

  /** What happened, oldest first; the last event is on the outside. */
  datatype History = Start | Then(before: History, last: Event)

  /** The events of one request, in order. */
  function Trace(log: seq<Event>, r: nat): History {
    if log == [] then Start
    else
      var before, e := Trace(log[..|log| - 1], r), log[|log| - 1];
      if e.r == r then Then(before, e) else before
  }

  /** Total wei credited to an account by successful payments. */
  function Credits(log: seq<Event>, a: Account): int {
    if log == [] then 0
    else
      var e := log[|log| - 1];
      Credits(log[..|log| - 1], a) + if e.Paid? && e.ok && e.account == a then e.credit else 0
  }

  /** Total units taken from an account by successful debits. */
  function Debits(log: seq<Event>, a: Account): int {
    if log == [] then 0
    else
      var e := log[|log| - 1];
      Debits(log[..|log| - 1], a) + if e.Debited? && e.ok && e.account == a then e.units else 0
  }

  /** Units successfully debited over a history. */
  function Charged(t: History): int {
    match t
    case Start => 0
    case Then(before, e) => Charged(before) + if e.Debited? && e.ok then e.units else 0
  }

  /** The call the daemon receives when the event happens, if any. */
  function CallFor(e: Event): seq<Call> {
    match e
    case Opened(_, s, _) => [OpenCall(s.workID, s.capability, s.offering, s.price, s.workUnit)]
    case Paid(_, account, _, _) => [ProcessCall(account.workID)]
    case Debited(_, account, units, _, _, _) => [DebitCall(account, units)]
    case Closed(_, account, _) => [CloseCall(account)]
    case _ => []
  }

  /** All calls the daemon has received. */
  function Asked(log: seq<Event>): seq<Call> {
    if log == [] then [] else Asked(log[..|log| - 1]) + CallFor(log[|log| - 1])
  }

  lemma AskedAppend(log: seq<Event>, e: Option<Event>)
    ensures Asked(Append(log, e)) == Asked(log) + if e.Some? then CallFor(e.value) else []
  {
    if e.Some? {
      assert (log + [e.value])[..|log|] == log;
    }
  }

  predicate IsRpc(e: Event) { e.Opened? || e.Paid? || e.Debited? || e.Closed? }

  /** The daemon calls of a history. */
  function Calls(t: History): History {
    match t
    case Start => Start
    case Then(before, e) => if IsRpc(e) then Then(Calls(before), e) else Calls(before)
  }

  function List(t: History): seq<Event> {
    match t
    case Start => []
    case Then(before, e) => List(before) + [e]
  }
}
