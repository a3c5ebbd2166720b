/** The capped counter's `allow` under concurrency: N callers interleave at every access to the
    seen map, the atomic count and the exceeded flag. The check of the count and its increment
    are separate steps, so the cap can be overshot, by N - 1 and no more. */
module CapRace {
  import opened Go

  /** Where a caller stands inside allow; each arm is one shared access away from the next. */
  datatype Pc =
    | Idle
    | Missed(key: string)    // seen.Load found nothing
    | Passed(key: string)    // count.Load was below max
    | Stored(key: string)    // seen.Store done, count.Add to come
    | Refused(key: string)   // count.Load was at least max, CompareAndSwap to come
    | Firing(key: string)    // CompareAndSwap won, callback to come

  datatype State = State(
    pcs: seq<Pc>,
    seen: set<string>,
    count: nat,
    exceeded: bool,
    fired: seq<int>,
    repeats: nat,           // stores of a key that was already in the map
    admitted: seq<string>,  // keys for which allow returned true, in order
    dropped: seq<string>)   // keys for which allow returned false, in order

  function Start(callers: nat): State {
    State(seq(callers, i => Idle), {}, 0, false, [], 0, [], [])
  }

  /** One step of caller t; an idle caller begins a call for the given key. */
  datatype Move = Move(t: nat, key: string)

  function Step(max: int, s: State, m: Move): State {
    if m.t >= |s.pcs| then s
    else
      match s.pcs[m.t]
      case Idle =>
        if max <= 0 || m.key in s.seen then s.(admitted := s.admitted + [m.key])
        else s.(pcs := s.pcs[m.t := Missed(m.key)])
      case Missed(key) =>
        s.(pcs := s.pcs[m.t := if s.count >= max then Refused(key) else Passed(key)])
      case Passed(key) =>
        s.(pcs := s.pcs[m.t := Stored(key)], seen := s.seen + {key},
           repeats := if key in s.seen then s.repeats + 1 else s.repeats)
      case Stored(key) =>
        s.(pcs := s.pcs[m.t := Idle], count := s.count + 1, admitted := s.admitted + [key])
      case Refused(key) =>
        if s.exceeded then s.(pcs := s.pcs[m.t := Idle], dropped := s.dropped + [key])
        else s.(pcs := s.pcs[m.t := Firing(key)], exceeded := true)
      case Firing(key) =>
        s.(pcs := s.pcs[m.t := Idle], fired := s.fired + [s.count], dropped := s.dropped + [key])
  }

  function Exec(max: int, s: State, schedule: seq<Move>): State {
    if schedule == [] then s
    else Step(max, Exec(max, s, schedule[..|schedule| - 1]), schedule[|schedule| - 1])
  }

  // ----- counting callers -----

  predicate InFlight(pc: Pc) { pc.Passed? || pc.Stored? }
  predicate HasStored(pc: Pc) { pc.Stored? }
  predicate IsFiring(pc: Pc) { pc.Firing? }

  function Count(pcs: seq<Pc>, p: Pc -> bool): (n: nat)
    ensures n <= |pcs|
  {
    if pcs == [] then 0
    else Count(pcs[..|pcs| - 1], p) + if p(pcs[|pcs| - 1]) then 1 else 0
  }

  lemma {:induction false} CountUpdate(pcs: seq<Pc>, t: nat, pc: Pc, p: Pc -> bool)
    requires t < |pcs|
    ensures Count(pcs[t := pc], p) == Count(pcs, p) - (if p(pcs[t]) then 1 else 0) + if p(pc) then 1 else 0
    decreases |pcs|
  {
    var n := |pcs| - 1;
    if t == n {
      assert pcs[t := pc][..n] == pcs[..n];
    } else {
      assert pcs[t := pc][..n] == pcs[..n][t := pc];
      CountUpdate(pcs[..n], t, pc, p);
    }
  }

  lemma {:induction false} CountNone(n: nat, p: Pc -> bool)
    requires !p(Idle)
    ensures Count(seq(n, i => Idle), p) == 0
  {
    if n > 0 {
      assert seq(n, i => Idle)[..n - 1] == seq(n - 1, i => Idle);
      CountNone(n - 1, p);
    }
  }

  // ----- the invariant -----

  /** What is counted: callers between check and add are all the overshoot there can be, the
      count and the map differ by repeated stores, and at most one caller fires. */
  ghost predicate Sizes(max: int, callers: nat, s: State) {
    && |s.pcs| == callers
    && s.count + Count(s.pcs, InFlight) <= max + callers - 1
    && s.count + Count(s.pcs, HasStored) == |s.seen| + s.repeats
    && |s.fired| + Count(s.pcs, IsFiring) == (if s.exceeded then 1 else 0)
  }

  ghost predicate Facts(max: int, s: State) {
    && (forall i :: 0 <= i < |s.fired| ==> s.fired[i] >= max)
    && (forall t :: 0 <= t < |s.pcs| && (s.pcs[t].Refused? || s.pcs[t].Firing?) ==> s.count >= max)
    && (forall t :: 0 <= t < |s.pcs| && s.pcs[t].Stored? ==> s.pcs[t].key in s.seen)
    && (forall i :: 0 <= i < |s.admitted| ==> s.admitted[i] in s.seen)
    && (s.dropped != [] ==> s.count >= max)
  }

  ghost predicate Inv(max: int, callers: nat, s: State) { Sizes(max, callers, s) && Facts(max, s) }

  /** The three counts after caller t moves to pc. */
  lemma Recount(pcs: seq<Pc>, t: nat, pc: Pc)
    requires t < |pcs|
    ensures
      var pcs' := pcs[t := pc];
      && Count(pcs', InFlight) - Count(pcs, InFlight) == Bit(InFlight(pc)) - Bit(InFlight(pcs[t]))
      && Count(pcs', HasStored) - Count(pcs, HasStored) == Bit(HasStored(pc)) - Bit(HasStored(pcs[t]))
      && Count(pcs', IsFiring) - Count(pcs, IsFiring) == Bit(IsFiring(pc)) - Bit(IsFiring(pcs[t]))
  {
    CountUpdate(pcs, t, pc, InFlight);
    CountUpdate(pcs, t, pc, HasStored);
    CountUpdate(pcs, t, pc, IsFiring);
  }

  function Bit(b: bool): int { if b then 1 else 0 }

  lemma {:induction false} ChecksKeepSizes(max: int, callers: nat, s: State, m: Move)
    requires max > 0 && Sizes(max, callers, s)
    requires m.t < |s.pcs| && (s.pcs[m.t].Idle? || s.pcs[m.t].Missed?)
    ensures Sizes(max, callers, Step(max, s, m))
  {
    var pc := Step(max, s, m).pcs[m.t];
    if s.pcs[m.t].Idle? && pc.Idle? {
      assert Step(max, s, m) == s.(admitted := s.admitted + [m.key]);
    } else {
      Recount(s.pcs, m.t, pc);
    }
  }

  lemma {:induction false} StoresKeepSizes(max: int, callers: nat, s: State, m: Move)
    requires max > 0 && Sizes(max, callers, s)
    requires m.t < |s.pcs| && (s.pcs[m.t].Passed? || s.pcs[m.t].Stored?)
    ensures Sizes(max, callers, Step(max, s, m))
  {
    var key := s.pcs[m.t].key;
    if s.pcs[m.t].Passed? {
      Recount(s.pcs, m.t, Stored(key));
      assert key in s.seen ==> s.seen + {key} == s.seen;
    } else {
      Recount(s.pcs, m.t, Idle);
    }
  }

  lemma {:induction false} RefusalsKeepSizes(max: int, callers: nat, s: State, m: Move)
    requires max > 0 && Sizes(max, callers, s)
    requires m.t < |s.pcs| && (s.pcs[m.t].Refused? || s.pcs[m.t].Firing?)
    ensures Sizes(max, callers, Step(max, s, m))
  {
    Recount(s.pcs, m.t, Step(max, s, m).pcs[m.t]);
  }

  lemma {:induction false} StepKeepsSizes(max: int, callers: nat, s: State, m: Move)
    requires max > 0 && Sizes(max, callers, s)
    ensures Sizes(max, callers, Step(max, s, m))
  {
    if m.t < |s.pcs| {
      match s.pcs[m.t]
      case Idle | Missed(_) => ChecksKeepSizes(max, callers, s, m);
      case Passed(_) | Stored(_) => StoresKeepSizes(max, callers, s, m);
      case Refused(_) | Firing(_) => RefusalsKeepSizes(max, callers, s, m);
    }
  }

  lemma StepKeepsFacts(max: int, s: State, m: Move)
    requires max > 0 && Facts(max, s)
    ensures Facts(max, Step(max, s, m))
  {
    if m.t < |s.pcs| {
      match s.pcs[m.t] {
        case Idle =>
        case Missed(key) =>
        case Passed(key) =>
        case Stored(key) =>
        case Refused(key) =>
        case Firing(key) =>
      }
    }
  }

  lemma StepKeepsInv(max: int, callers: nat, s: State, m: Move)
    requires max > 0 && Inv(max, callers, s)
    ensures Inv(max, callers, Step(max, s, m))
  {
    StepKeepsSizes(max, callers, s, m);
    StepKeepsFacts(max, s, m);
  }

  lemma {:induction false} ExecInv(max: int, callers: nat, schedule: seq<Move>)
    requires max > 0 && callers > 0
    ensures Inv(max, callers, Exec(max, Start(callers), schedule))
    decreases |schedule|
  {
    if schedule == [] {
      CountNone(callers, InFlight);
      CountNone(callers, HasStored);
      CountNone(callers, IsFiring);
    } else {
      var n := |schedule| - 1;
      ExecInv(max, callers, schedule[..n]);
      StepKeepsInv(max, callers, Exec(max, Start(callers), schedule[..n]), schedule[n]);
    }
  }

  /** With N callers and a cap, over every interleaving: the count and the number of admitted
      keys stay at most max + N - 1; every key for which allow returned true is in the map; the
      callback fires at most once, and only with an observed count of at least max. */
  lemma OvershootBound(max: int, callers: nat, schedule: seq<Move>)
    requires max > 0 && callers > 0
    ensures
      var s := Exec(max, Start(callers), schedule);
      && s.count <= max + callers - 1
      && |s.seen| <= max + callers - 1
      && (forall i :: 0 <= i < |s.admitted| ==> s.admitted[i] in s.seen)
      && |s.fired| <= 1
      && (forall i :: 0 <= i < |s.fired| ==> s.fired[i] >= max)
  {
    ExecInv(max, callers, schedule);
    var s := Exec(max, Start(callers), schedule);
    StoredAreInFlight(s.pcs);
  }

  lemma {:induction false} StoredAreInFlight(pcs: seq<Pc>)
    ensures Count(pcs, HasStored) <= Count(pcs, InFlight)
    decreases |pcs|
  {
    if pcs != [] {
      StoredAreInFlight(pcs[..|pcs| - 1]);
    }
  }

  /** An admitted key stays admitted: once in the map, every later call for it returns true in
      one step, whatever happened in between. */
  lemma {:induction false} AdmittedStaysAdmitted(max: int, s: State, schedule: seq<Move>, t: nat, key: string)
    requires key in s.seen
    ensures
      var s' := Exec(max, s, schedule);
      && key in s'.seen
      && (t < |s'.pcs| && s'.pcs[t] == Idle ==>
            Step(max, s', Move(t, key)) == s'.(admitted := s'.admitted + [key]))
    decreases |schedule|
  {
    if schedule != [] {
      AdmittedStaysAdmitted(max, s, schedule[..|schedule| - 1], t, key);
    }
  }

  /** Exact bookkeeping: count runs ahead of the map by the repeated stores, so a key can only
      be dropped below the cap when two callers raced to store the same one. */
  lemma DropsBelowCapNeedARace(max: int, callers: nat, schedule: seq<Move>)
    requires max > 0 && callers > 0
    ensures
      var s := Exec(max, Start(callers), schedule);
      && s.count + Count(s.pcs, HasStored) == |s.seen| + s.repeats
      && (s.dropped != [] && |s.seen| < max ==> s.repeats > 0)
  {
    ExecInv(max, callers, schedule);
  }

  // ----- the bound is attained -----

  function Key(i: nat): string { seq(i, k => 'k') }

  lemma ExecSnoc(max: int, s: State, schedule: seq<Move>, m: Move)
    ensures Exec(max, s, schedule + [m]) == Step(max, Exec(max, s, schedule), m)
  {
    assert (schedule + [m])[..|schedule|] == schedule;
  }

  lemma Then(max: int, s: State, schedule: seq<Move>, m: Move) returns (longer: seq<Move>)
    ensures Exec(max, s, longer) == Step(max, Exec(max, s, schedule), m)
  {
    longer := schedule + [m];
    ExecSnoc(max, s, schedule, m);
  }

  /** Keys from n on are unused, the count is exact, and every key in the map was admitted. */
  ghost predicate Clean(s: State, callers: nat, n: nat) {
    && |s.pcs| == callers
    && s.repeats == 0
    && s.fired == [] && !s.exceeded
    && (forall k :: k in s.seen ==> k in s.admitted)
    && forall j: nat :: j >= n ==> Key(j) !in s.seen
  }

  lemma {:induction false} Fill(max: int, callers: nat, n: nat) returns (schedule: seq<Move>)
    requires callers > 0 && n < max
    ensures
      var s := Exec(max, Start(callers), schedule);
      Clean(s, callers, n) && s.count == n && forall t :: 0 <= t < callers ==> s.pcs[t] == Idle
    decreases n
  {
    if n == 0 {
      schedule := [];
    } else {
      schedule := Fill(max, callers, n - 1);
      var key := Key(n - 1);
      schedule := Then(max, Start(callers), schedule, Move(0, key));
      schedule := Then(max, Start(callers), schedule, Move(0, key));
      schedule := Then(max, Start(callers), schedule, Move(0, key));
      schedule := Then(max, Start(callers), schedule, Move(0, key));
      assert forall j: nat :: j >= n ==> |Key(j)| > |key|;
    }
  }

  /** With max - 1 keys in, every caller passes the check before any of them adds. */
  lemma {:induction false} Arm(max: int, callers: nat, n: nat) returns (schedule: seq<Move>)
    requires max > 0 && callers > 0 && n <= callers
    ensures
      var s := Exec(max, Start(callers), schedule);
      && Clean(s, callers, max - 1) && s.count == max - 1
      && (forall t :: 0 <= t < n ==> s.pcs[t] == Passed(Key(max - 1 + t)))
      && forall t :: n <= t < callers ==> s.pcs[t] == Idle
    decreases n
  {
    if n == 0 {
      schedule := Fill(max, callers, max - 1);
    } else {
      schedule := Arm(max, callers, n - 1);
      var key := Key(max - 1 + n - 1);
      schedule := Then(max, Start(callers), schedule, Move(n - 1, key));
      schedule := Then(max, Start(callers), schedule, Move(n - 1, key));
    }
  }

  lemma {:induction false} Drain(max: int, callers: nat, n: nat) returns (schedule: seq<Move>)
    requires max > 0 && callers > 0 && n <= callers
    ensures
      var s := Exec(max, Start(callers), schedule);
      && Clean(s, callers, max - 1 + n) && s.count == max - 1 + n
      && (forall t :: 0 <= t < n ==> s.pcs[t] == Idle)
      && forall t :: n <= t < callers ==> s.pcs[t] == Passed(Key(max - 1 + t))
    decreases n
  {
    if n == 0 {
      schedule := Arm(max, callers, callers);
    } else {
      schedule := Drain(max, callers, n - 1);
      var key := Key(max - 1 + n - 1);
      schedule := Then(max, Start(callers), schedule, Move(n - 1, key));
      schedule := Then(max, Start(callers), schedule, Move(n - 1, key));
      assert forall j: nat :: j >= max - 1 + n ==> |Key(j)| > |key|;
    }
  }

  /** For every cap and every number of callers, some interleaving reaches the bound: all calls
      have returned, and under a cap of max exactly max + N - 1 distinct keys were admitted. */
  lemma OvershootIsAttained(max: int, callers: nat) returns (schedule: seq<Move>)
    requires max > 0 && callers > 0
    ensures
      var s := Exec(max, Start(callers), schedule);
      && (forall t :: 0 <= t < |s.pcs| ==> s.pcs[t] == Idle)
      && s.seen == (set i | 0 <= i < |s.admitted| :: s.admitted[i])
      && s.count == |s.seen| == max + callers - 1
  {
    schedule := Drain(max, callers, callers);
    ExecInv(max, callers, schedule);
    OvershootBound(max, callers, schedule);
    var s := Exec(max, Start(callers), schedule);
    assert s.seen == set i | 0 <= i < |s.admitted| :: s.admitted[i];
  }

  /** And the callback then reports the count it finds, overshoot included. */
  lemma CallbackReportsTheCount(max: int, callers: nat) returns (schedule: seq<Move>)
    requires max > 0 && callers > 0
    ensures Exec(max, Start(callers), schedule).fired == [max + callers - 1]
  {
    var before := Drain(max, callers, callers);
    var key := Key(max - 1 + callers);
    schedule := Then(max, Start(callers), before, Move(0, key));
    schedule := Then(max, Start(callers), schedule, Move(0, key));
    schedule := Then(max, Start(callers), schedule, Move(0, key));
    schedule := Then(max, Start(callers), schedule, Move(0, key));
  }

  // ----- drops below the cap -----

  /** The schedule ends with a key dropped although fewer than max are in the map. */
  ghost predicate DropsBelowCap(max: int, callers: nat, schedule: seq<Move>) {
    var s := Exec(max, Start(callers), schedule);
    s.dropped != [] && |s.seen| < max
  }

  lemma {:induction false} NoneStored(pcs: seq<Pc>)
    requires forall t :: 0 <= t < |pcs| ==> pcs[t] == Idle
    ensures Count(pcs, HasStored) == 0
    decreases |pcs|
  {
    if pcs != [] {
      NoneStored(pcs[..|pcs| - 1]);
    }
  }

  /** A full counter turns an idle caller's new key away, and changes nothing else. */
  lemma FullCounterDrops(max: int, callers: nat, before: seq<Move>, key: string) returns (schedule: seq<Move>)
    requires max > 0
    requires var s := Exec(max, Start(callers), before); |s.pcs| > 0 && s.pcs[0] == Idle && s.count >= max && key !in s.seen
    ensures
      var s, s' := Exec(max, Start(callers), before), Exec(max, Start(callers), schedule);
      s'.seen == s.seen && s'.dropped == s.dropped + [key]
  {
    schedule := Then(max, Start(callers), before, Move(0, key));
    schedule := Then(max, Start(callers), schedule, Move(0, key));
    assert Exec(max, Start(callers), schedule).pcs[0] == Refused(key);
    schedule := Then(max, Start(callers), schedule, Move(0, key));
    if Exec(max, Start(callers), schedule).pcs[0].Firing? {
      schedule := Then(max, Start(callers), schedule, Move(0, key));
    }
  }

  /** Two callers racing on the last but one key use up the cap; the next key is dropped with
      max - 1 in the map. */
  lemma RaceDropsBelowCap(max: int, callers: nat) returns (schedule: seq<Move>)
    requires max >= 2 && callers >= 2
    ensures DropsBelowCap(max, callers, schedule)
  {
    var before := BothStore(max, callers);
    var s := Exec(max, Start(callers), before);
    assert |s.seen| == max - 1 by {
      ExecInv(max, callers, before);
      NoneStored(s.pcs);
    }
    schedule := FullCounterDrops(max, callers, before, Key(max - 1));
  }

  /** Both callers pass the check for one new key, with max - 2 in the map. */
  lemma BothPass(max: int, callers: nat) returns (schedule: seq<Move>)
    requires max >= 2 && callers >= 2
    ensures
      var s, key := Exec(max, Start(callers), schedule), Key(max - 2);
      && Clean(s, callers, max - 2) && s.count == max - 2
      && s.pcs[0] == s.pcs[1] == Passed(key) && forall t :: 2 <= t < callers ==> s.pcs[t] == Idle
  {
    schedule := Fill(max, callers, max - 2);
    var key := Key(max - 2);
    schedule := Then(max, Start(callers), schedule, Move(0, key));
    schedule := Then(max, Start(callers), schedule, Move(1, key));
    schedule := Then(max, Start(callers), schedule, Move(0, key));
    schedule := Then(max, Start(callers), schedule, Move(1, key));
  }

  /** And both store it: the count is full, the map is not. */
  lemma BothStore(max: int, callers: nat) returns (schedule: seq<Move>)
    requires max >= 2 && callers >= 2
    ensures
      var s := Exec(max, Start(callers), schedule);
      && |s.pcs| == callers && s.count == max && s.repeats == 1 && Key(max - 1) !in s.seen
      && forall t :: 0 <= t < callers ==> s.pcs[t] == Idle
  {
    schedule := BothPass(max, callers);
    var key := Key(max - 2);
    schedule := Then(max, Start(callers), schedule, Move(0, key));
    schedule := Then(max, Start(callers), schedule, Move(1, key));
    schedule := Then(max, Start(callers), schedule, Move(0, key));
    schedule := Then(max, Start(callers), schedule, Move(1, key));
    assert |Key(max - 1)| > |key|;
  }

  /** Why neither a single caller nor a cap of one can do it: alone, the key being stored is new;
      and a count above zero leaves a key in the map. */
  ghost predicate Tame(s: State) {
    && (s.count > 0 ==> s.seen != {})
    && (forall t :: 0 <= t < |s.pcs| && s.pcs[t].Stored? ==> s.seen != {})
    && (|s.pcs| <= 1 ==> s.repeats == 0)
    && (|s.pcs| == 1 && (s.pcs[0].Missed? || s.pcs[0].Passed?) ==> s.pcs[0].key !in s.seen)
  }

  lemma {:induction false} StepKeepsTame(max: int, s: State, m: Move)
    requires Tame(s)
    ensures Tame(Step(max, s, m))
  {
    if m.t < |s.pcs| && s.pcs[m.t].Passed? {
      assert s.pcs[m.t].key in s.seen + {s.pcs[m.t].key};
    }
  }

  lemma {:induction false} ExecTame(max: int, callers: nat, schedule: seq<Move>)
    ensures Tame(Exec(max, Start(callers), schedule))
    decreases |schedule|
  {
    if schedule != [] {
      var n := |schedule| - 1;
      ExecTame(max, callers, schedule[..n]);
      StepKeepsTame(max, Exec(max, Start(callers), schedule[..n]), schedule[n]);
    }
  }

  function MovesBelow(schedule: seq<Move>, callers: nat): nat {
    if schedule == [] then 0
    else MovesBelow(schedule[..|schedule| - 1], callers) + if schedule[|schedule| - 1].t < callers then 1 else 0
  }

  /** With the cap disabled every call is admitted in its one step, and nothing is tracked. */
  lemma {:induction false} DisabledCapAdmitsAll(max: int, callers: nat, schedule: seq<Move>)
    requires max <= 0
    ensures
      var s := Exec(max, Start(callers), schedule);
      && |s.admitted| == MovesBelow(schedule, callers)
      && s == Start(callers).(admitted := s.admitted)
      && (schedule != [] && schedule[|schedule| - 1].t < callers ==>
            s.admitted != [] && s.admitted[|s.admitted| - 1] == schedule[|schedule| - 1].key)
    decreases |schedule|
  {
    if schedule != [] {
      DisabledCapAdmitsAll(max, callers, schedule[..|schedule| - 1]);
    }
  }

  /** Without a cap, or without callers, nothing is ever dropped. */
  lemma {:induction false} NoCapNoDrop(max: int, callers: nat, schedule: seq<Move>)
    requires max <= 0 || callers == 0
    ensures
      var s := Exec(max, Start(callers), schedule);
      s.dropped == [] && |s.pcs| == callers && forall t :: 0 <= t < |s.pcs| ==> s.pcs[t] == Idle
    decreases |schedule|
  {
    if schedule != [] {
      NoCapNoDrop(max, callers, schedule[..|schedule| - 1]);
    }
  }

  /** For every setting of the cap and every number of callers: some interleaving drops a key
      below the cap if and only if the cap is at least two and so are the callers. */
  lemma DropBelowCapPossibleIff(max: int, callers: nat)
    ensures (exists schedule :: DropsBelowCap(max, callers, schedule)) <==> max >= 2 && callers >= 2
  {
    if max >= 2 && callers >= 2 {
      var schedule := RaceDropsBelowCap(max, callers);
      assert DropsBelowCap(max, callers, schedule);
    } else {
      forall schedule: seq<Move> ensures !DropsBelowCap(max, callers, schedule) {
        if max <= 0 || callers == 0 {
          NoCapNoDrop(max, callers, schedule);
        } else {
          ExecInv(max, callers, schedule);
          ExecTame(max, callers, schedule);
        }
      }
    }
  }
}
