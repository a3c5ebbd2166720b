/** Money: conservation on the shared ledger, isolation of accounts, and the rule that nothing
    is served before it is paid for. Every theorem holds after every schedule. */
module PaidRequestLedger {
  import opened Go
  import opened Ledger
  import opened PaidRequest
  import opened PaidRequestTrace
  import Codecs

  lemma FoldAppend(log: seq<Event>, e: Event, a: Account)
    ensures Credits(log + [e], a) == Credits(log, a) + if e.Paid? && e.ok && e.account == a then e.credit else 0
    ensures Debits(log + [e], a) == Debits(log, a) + if e.Debited? && e.ok && e.account == a then e.units else 0
  {
    assert (log + [e])[..|log|] == log;
  }

  // ----- conservation -----

  /** What the log says an account should hold. */
  function Owed(env: Env, log: seq<Event>, a: Account): int {
    Credits(log, a) - env.rate * Debits(log, a)
  }

  ghost predicate LedgerOk(env: Env, s: State) {
    forall a: Account :: |a.workID| == 64 ==> Balance(s.balances, a) == Owed(env, s.log, a)
  }

  /** What a turn may do to the ledger, told by the event it emits and nothing else. */
  predicate LedgerMove(env: Env, before: map<string, int>, after: map<string, int>, e: Option<Event>) {
    if e.Some? && e.value.Paid? && e.value.ok then
      after == Adjust(before, e.value.account, e.value.credit) && |e.value.account.workID| == 64
    else if e.Some? && e.value.Debited? && e.value.ok then
      && after == Adjust(before, e.value.account, -(env.rate * e.value.units))
      && |e.value.account.workID| == 64
      && e.value.balance == Balance(after, e.value.account)
    else
      after == before
  }

  lemma PayOnLedger(env: Env, s: State, r: nat, h': Handler)
    requires r < |s.handlers| && s.handlers[r].pc == Paying && |h'.session.workID| == 64
    ensures LedgerMove(env, s.balances, NextShared(env, s, s.handlers[r], h').balances, Emitted(r, s.handlers[r], h'))
  {
  }

  lemma DebitOnLedger(env: Env, s: State, r: nat, reply: Reply)
    requires r < |s.handlers| && Consistent(s.handlers[r])
    requires s.handlers[r].pc == Debiting || s.handlers[r].pc == Reconciling
    ensures
      var h, h' := s.handlers[r], TurnedLocals(env, s, r, reply);
      LedgerMove(env, s.balances, NextShared(env, s, h, h').balances, Emitted(r, h, h'))
  {
    assert |s.handlers[r].session.workID| == 64;
  }

  /** No other step touches the ledger or reports that it did. */
  lemma OthersOnLedger(env: Env, s: State, r: nat, h: Handler, h': Handler)
    requires h.pc != Paying && h.pc != Debiting && h.pc != Reconciling
    ensures NextShared(env, s, h, h').balances == s.balances
    ensures var e := Emitted(r, h, h'); e.Some? ==> !e.value.Paid? && !e.value.Debited?
  {
    OthersEmitNoLedgerEvent(r, h, h');
  }

  lemma OthersEmitNoLedgerEvent(r: nat, h: Handler, h': Handler)
    requires h.pc != Paying && h.pc != Debiting && h.pc != Reconciling
    ensures var e := Emitted(r, h, h'); e.Some? ==> !e.value.Paid? && !e.value.Debited?
  {
  }

  lemma TurnOnLedger(env: Env, s: State, r: nat, reply: Reply)
    requires r < |s.handlers| && Consistent(s.handlers[r])
    ensures LedgerMove(env, s.balances, Turned(env, s, r, reply).balances,
                       Emitted(r, s.handlers[r], TurnedLocals(env, s, r, reply)))
  {
    var h, h' := s.handlers[r], TurnedLocals(env, s, r, reply);
    if h.pc == Paying {
      PayOnLedger(env, s, r, h');
    } else if h.pc == Debiting || h.pc == Reconciling {
      DebitOnLedger(env, s, r, reply);
    } else {
      OthersOnLedger(env, s, r, h, h');
    }
  }

  lemma ScaleAdd(rate: int, x: int, y: int)
    ensures rate * (x + y) == rate * x + rate * y
  {
  }

  /** A ledger move shifts every balance by exactly what its event adds to the log. */
  lemma MoveShiftsBalance(env: Env, before: map<string, int>, after: map<string, int>, log: seq<Event>,
                          e: Option<Event>, a: Account)
    requires LedgerMove(env, before, after, e) && |a.workID| == 64
    ensures Balance(after, a) - Balance(before, a) == Owed(env, Append(log, e), a) - Owed(env, log, a)
  {
    if e.Some? {
      FoldAppend(log, e.value, a);
      if e.value.Paid? && e.value.ok {
        AdjustTouchesOneAccount(before, e.value.account, e.value.credit, a);
      } else if e.value.Debited? && e.value.ok {
        AdjustTouchesOneAccount(before, e.value.account, -(env.rate * e.value.units), a);
        ScaleAdd(env.rate, Debits(log, a), e.value.units);
      }
    }
  }

  lemma TurnKeepsLedger(env: Env, s: State, r: nat, reply: Reply)
    requires Locals(s) && LedgerOk(env, s) && r < |s.handlers|
    ensures LedgerOk(env, Turned(env, s, r, reply))
  {
    var s' := Turned(env, s, r, reply);
    TurnOnLedger(env, s, r, reply);
    forall a: Account | |a.workID| == 64 ensures Balance(s'.balances, a) == Owed(env, s'.log, a) {
      MoveShiftsBalance(env, s.balances, s'.balances, s.log, Emitted(r, s.handlers[r], s'.handlers[r]), a);
    }
  }

  lemma StepKeepsLedger(env: Env, s: State, m: Move)
    requires Locals(s) && LedgerOk(env, s)
    ensures LedgerOk(env, Step(env, s, m))
  {
    match m
    case Arrive(_) =>
    case Turn(r, reply) => if r < |s.handlers| { TurnKeepsLedger(env, s, r, reply); }
  }

  lemma {:induction false} ExecLedger(env: Env, schedule: seq<Move>)
    ensures LedgerOk(env, Exec(env, schedule))
    decreases |schedule|
  {
    if schedule != [] {
      var n := |schedule| - 1;
      var s := Exec(env, schedule[..n]);
      ExecLedger(env, schedule[..n]);
      ExecLocals(env, schedule[..n]);
      StepKeepsLedger(env, s, schedule[n]);
    }
  }

  /** Conservation: after any interleaving of any number of requests, the balance of a (sender,
      work id) pair is its credits minus the rate times every unit successfully debited on it. */
  lemma Conservation(env: Env, schedule: seq<Move>, blob: Bytes, sender: Bytes)
    ensures
      var s := Exec(env, schedule);
      var a := Account(sender, DeriveWorkID(env.hash, blob));
      Balance(s.balances, a) == Credits(s.log, a) - env.rate * Debits(s.log, a)
  {
    ExecLedger(env, schedule);
  }

  // ----- isolation -----

  /** From Opening on, a handler's session is the one its request and the catalog determine. */
  predicate SessionOk(env: Env, h: Handler) {
    h.pc == Opening || h.pay.openOk.Some? ==> Examine(env, h.req) == Ready(h.modelLabel, h.session)
  }

  ghost predicate SessionsOk(env: Env, s: State) {
    forall r: nat :: r < |s.handlers| ==> SessionOk(env, s.handlers[r])
  }

  lemma TurnKeepsSession(env: Env, h: Handler, free: bool, left: int, reply: Reply)
    requires Consistent(h) && SessionOk(env, h)
    ensures SessionOk(env, NextLocals(env, h, free, left, reply))
  {
    match h.pc {
      case Examining =>
      case Opening =>
      case _ =>
    }
  }

  lemma {:induction false} ExecSessions(env: Env, schedule: seq<Move>)
    ensures SessionsOk(env, Exec(env, schedule))
    decreases |schedule|
  {
    if schedule != [] {
      var n := |schedule| - 1;
      var s := Exec(env, schedule[..n]);
      ExecSessions(env, schedule[..n]);
      ExecLocals(env, schedule[..n]);
      match schedule[n]
      case Arrive(_) =>
      case Turn(r, reply) =>
        if r < |s.handlers| {
          var h := s.handlers[r];
          TurnKeepsSession(env, h, s.inflight < Slots(env), BalanceAfterDebit(env, s, h), reply);
        }
    }
  }

  lemma DistinctWorkIDs(hash: Hash, b: Bytes, c: Bytes)
    ensures DeriveWorkID(hash, b) == DeriveWorkID(hash, c) <==> hash(b) == hash(c)
  {
    Codecs.HexDecodeEncode(hash(b));
    Codecs.HexDecodeEncode(hash(c));
  }

  /** The request pays with a blob whose digest is not that of the given one, or not at all. */
  predicate PaysElsewhere(hash: Hash, req: Request, blob: Bytes) {
    req.header.Payment? ==> hash(req.header.blob) != hash(blob)
  }

  /** A turn only ever touches the account of its own payment blob. */
  lemma OwnWorkID(env: Env, h: Handler, r: nat, free: bool, left: int, reply: Reply)
    requires Consistent(h) && SessionOk(env, h)
    ensures
      var e := Emitted(r, h, NextLocals(env, h, free, left, reply));
      e.Some? && (e.value.Paid? || e.value.Debited?) ==>
        && h.req.header.Payment?
        && e.value.account.workID == DeriveWorkID(env.hash, h.req.header.blob)
  {
    if h.pc == Paying || h.pc == Debiting || h.pc == Reconciling {
      assert Examine(env, h.req) == Ready(h.modelLabel, h.session);
    } else {
      OthersEmitNoLedgerEvent(r, h, NextLocals(env, h, free, left, reply));
    }
  }

  /** A request cannot move the balance of a payment blob with another digest: whatever a turn of
      r does, the accounts of every such blob stand, for every sender. */
  lemma OtherBlobsUntouched(env: Env, schedule: seq<Move>, r: nat, reply: Reply, blob: Bytes, sender: Bytes)
    requires r < |Exec(env, schedule).handlers|
    requires PaysElsewhere(env.hash, Exec(env, schedule).handlers[r].req, blob)
    ensures
      var s := Exec(env, schedule);
      var a := Account(sender, DeriveWorkID(env.hash, blob));
      Balance(Turned(env, s, r, reply).balances, a) == Balance(s.balances, a)
  {
    ExecLocals(env, schedule);
    ExecSessions(env, schedule);
    OtherBlobUntouchedBy(env, Exec(env, schedule), r, reply, blob, sender);
  }

  lemma OtherBlobUntouchedBy(env: Env, s: State, r: nat, reply: Reply, blob: Bytes, sender: Bytes)
    requires r < |s.handlers| && PaysElsewhere(env.hash, s.handlers[r].req, blob)
    requires Consistent(s.handlers[r]) && SessionOk(env, s.handlers[r])
    ensures
      var a := Account(sender, DeriveWorkID(env.hash, blob));
      Balance(Turned(env, s, r, reply).balances, a) == Balance(s.balances, a)
  {
    var h := s.handlers[r];
    var a := Account(sender, DeriveWorkID(env.hash, blob));
    TurnOnLedger(env, s, r, reply);
    OwnWorkID(env, h, r, s.inflight < Slots(env), BalanceAfterDebit(env, s, h), reply);
    var e := Emitted(r, h, TurnedLocals(env, s, r, reply));
    if e.Some? && (e.value.Paid? || e.value.Debited?) && e.value.ok {
      DistinctWorkIDs(env.hash, blob, h.req.header.blob);
      SameLengthSeparates(e.value.account, a);
    }
  }

  // ----- nothing is served before it is paid for -----

  /** The history of a request that may enter Serve: slot, OpenSession, ProcessPayment and the
      upfront DebitBalance, each successful, in that order and nothing else, with the debit
      leaving a balance that is not negative. */
  predicate PaidUp(t: History, r: nat) {
    && t.Then? && t.before.Then? && t.before.before.Then? && t.before.before.before.Then?
    && t.before.before.before.before.Start?
    && var debit, pay, open, slot := t.last, t.before.last, t.before.before.last, t.before.before.before.last;
       && slot == Acquired(r)
       && open.Opened? && open.ok
       && pay.Paid? && pay.ok && pay.account.workID == open.session.workID
       && debit.Debited? && debit.ok && debit.upfront && debit.account == pay.account
       && debit.units >= 0 && debit.balance >= 0
  }

  /** Every successful debit reported the balance its account had at that very point, and every
      entry into Serve was paid up. */
  ghost predicate GateOk(env: Env, log: seq<Event>) {
    && (forall c :: 0 <= c < |log| && log[c].Debited? && log[c].ok ==>
          log[c].balance == Owed(env, log[..c + 1], log[c].account))
    && forall i :: 0 <= i < |log| && log[i].Entered? ==> PaidUp(Trace(log[..i], log[i].r), log[i].r)
  }

  lemma GateAppend(env: Env, log: seq<Event>, e: Event)
    requires GateOk(env, log)
    requires e.Debited? && e.ok ==> e.balance == Owed(env, log + [e], e.account)
    requires e.Entered? ==> PaidUp(Trace(log, e.r), e.r)
    ensures GateOk(env, log + [e])
  {
    var log' := log + [e];
    forall c | 0 <= c < |log'| && log'[c].Debited? && log'[c].ok
      ensures log'[c].balance == Owed(env, log'[..c + 1], log'[c].account)
    {
      if c < |log| {
        assert log'[..c + 1] == log[..c + 1];
      } else {
        assert log'[..c + 1] == log';
      }
    }
    forall i | 0 <= i < |log'| && log'[i].Entered? ensures PaidUp(Trace(log'[..i], log'[i].r), log'[i].r) {
      assert log'[..i] == if i < |log| then log[..i] else log;
    }
  }

  lemma TurnKeepsGate(env: Env, s: State, r: nat, reply: Reply)
    requires Locals(s) && LedgerOk(env, s) && GateOk(env, s.log) && r < |s.handlers|
    ensures GateOk(env, Turned(env, s, r, reply).log)
  {
    var h := s.handlers[r];
    var s' := Turned(env, s, r, reply);
    var e := Emitted(r, h, s'.handlers[r]);
    TurnKeepsLedger(env, s, r, reply);
    TurnOnLedger(env, s, r, reply);
    if e.Some? {
      if e.value.Entered? {
        EnteringIsPaidUp(r, h);
      }
      GateAppend(env, s.log, e.value);
    }
  }

  lemma EnteringIsPaidUp(r: nat, h: Handler)
    requires Consistent(h) && h.pc == Entering
    ensures PaidUp(Expected(r, h), r)
  {
  }

  lemma StepKeepsGate(env: Env, s: State, m: Move)
    requires Locals(s) && LedgerOk(env, s) && GateOk(env, s.log)
    ensures GateOk(env, Step(env, s, m).log)
  {
    match m
    case Arrive(_) =>
    case Turn(r, reply) => if r < |s.handlers| { TurnKeepsGate(env, s, r, reply); }
  }

  lemma {:induction false} ExecGate(env: Env, schedule: seq<Move>)
    ensures GateOk(env, Exec(env, schedule).log)
    decreases |schedule|
  {
    if schedule == [] {
      assert Exec(env, schedule).log == [];
    } else {
      var n := |schedule| - 1;
      ExecGate(env, schedule[..n]);
      ExecLocals(env, schedule[..n]);
      ExecLedger(env, schedule[..n]);
      StepKeepsGate(env, Exec(env, schedule[..n]), schedule[n]);
    }
  }

  lemma {:induction false} LastOfTraceIsInLog(log: seq<Event>, r: nat) returns (c: int)
    requires Trace(log, r).Then?
    ensures 0 <= c < |log| && log[c] == Trace(log, r).last
    decreases |log|
  {
    if log[|log| - 1].r == r {
      c := |log| - 1;
    } else {
      c := LastOfTraceIsInLog(log[..|log| - 1], r);
    }
  }

  /** A request enters Serve only after its own OpenSession, ProcessPayment and upfront debit
      succeeded in that order, and at the debit (log position c) everything ever debited on the
      account, in wei, was covered by everything credited to it, whoever else shares the key. */
  lemma ServedOnlyWhenPaid(env: Env, schedule: seq<Move>, i: int) returns (c: int)
    requires 0 <= i < |Exec(env, schedule).log| && Exec(env, schedule).log[i].Entered?
    ensures
      var log := Exec(env, schedule).log;
      var r := log[i].r;
      && PaidUp(Trace(log[..i], r), r)
      && 0 <= c < i && log[c] == Trace(log[..i], r).last
      && env.rate * Debits(log[..c + 1], log[c].account) <= Credits(log[..c + 1], log[c].account)
  {
    var log := Exec(env, schedule).log;
    ExecGate(env, schedule);
    c := LastOfTraceIsInLog(log[..i], log[i].r);
    assert log[..i][c] == log[c];
  }
}
