/** Startup wiring: the mux, the unpaid routes, module registration, and the decision to serve
    or to refuse. A duplicate route panics in the program; here the call answers false and the
    caller stops. */
module Startup {
  import opened Go
  import opened Catalog

  // ----- the modules of this build -----

  datatype Module = Module(capability: string, verb: string, path: string)

  /** The capabilities this build has a module for. */
  const CAPABILITIES: set<string> :=
    {"openai:/v1/chat/completions", "openai:/v1/embeddings", "openai:/v1/images/generations", "openai:/v1/audio/speech",
     "openai:/v1/images/edits", "openai:/v1/audio/transcriptions"}

  const SCHEME := "openai:"

  /** The switch over capabilities. Each of the six modules takes POST requests on its path, and
      its capability is that path behind the scheme. */
  function ModuleFor(capability: string): Option<Module> {
    if capability in CAPABILITIES && SCHEME <= capability then
      Some(Module(capability, "POST", capability[|SCHEME|..]))
    else None
  }

  /** The six are implemented, each on POST and its path, and no other is. */
  lemma SixCapabilities(c: string)
    ensures Implemented(c) <==>
            c in {"openai:/v1/chat/completions", "openai:/v1/embeddings", "openai:/v1/images/generations",
                  "openai:/v1/audio/speech", "openai:/v1/images/edits", "openai:/v1/audio/transcriptions"}
    ensures Implemented(c) ==> PaidPattern(c) == "POST " + c[7..]
  {
    if c in CAPABILITIES {
      AllHaveScheme(c);
    }
  }

  lemma AllHaveScheme(c: string)
    requires c in CAPABILITIES
    ensures SCHEME <= c
  {
    assert c[..7] == SCHEME by {
      assert c[0] == 'o' && c[1] == 'p' && c[2] == 'e' && c[3] == 'n' && c[4] == 'a' && c[5] == 'i' && c[6] == ':';
    }
  }

  predicate Implemented(capability: string) { ModuleFor(capability).Some? }

  function Pattern(verb: string, path: string): string { verb + " " + path }

  function PaidPattern(capability: string): string
    requires Implemented(capability)
  {
    var m := ModuleFor(capability).value;
    Pattern(m.verb, m.path)
  }

  const UNPAID: set<string> :=
    {"GET /health", "GET /registry/offerings", "POST /v1/payment/ticket-params"}

  lemma PatternsAreDistinct(a: string, b: string)
    requires Implemented(a) && Implemented(b) && PaidPattern(a) == PaidPattern(b)
    ensures a == b
  {
    assert PaidPattern(a)[5..] == a[7..] && PaidPattern(b)[5..] == b[7..];
    assert a == SCHEME + a[7..] && b == SCHEME + b[7..];
  }

  /** After "/v1/" no module's path goes on like that of the ticket route. */
  lemma NoModuleStartsWithP(c: string)
    requires c in CAPABILITIES
    ensures |c| > 12 && c[11] != 'p'
  {
    assert c[11] == 'c' || c[11] == 'e' || c[11] == 'i' || c[11] == 'a';
  }

  lemma PaidIsNotUnpaid(capability: string)
    requires Implemented(capability)
    ensures PaidPattern(capability) !in UNPAID
  {
    var p := PaidPattern(capability);
    NoModuleStartsWithP(capability);
    assert p == "POST " + capability[7..];
    assert p[9] == capability[11] && p[0] == 'P';
    TicketRoute();
  }

  lemma TicketRoute()
    ensures "POST /v1/payment/ticket-params"[9] == 'p' && "GET /health"[0] == 'G' && "GET /registry/offerings"[0] == 'G'
  {
  }

  /** The unpaid patterns are spelled by their verbs and paths. */
  lemma HealthPattern()
    ensures Pattern("GET", "/health") == "GET /health"
  {
  }

  lemma OfferingsPattern()
    ensures Pattern("GET", "/registry/offerings") == "GET /registry/offerings"
  {
  }

  lemma TicketPattern()
    ensures Pattern("POST", "/v1/payment/ticket-params") == "POST /v1/payment/ticket-params"
  {
  }

  // ----- what registration amounts to -----

  ghost predicate RepeatsImplemented(ordered: seq<CapabilityEntry>) {
    exists i, k :: 0 <= i < k < |ordered| && Implemented(ordered[i].capability)
      && ordered[i].capability == ordered[k].capability
  }

  ghost predicate SomeImplemented(ordered: seq<CapabilityEntry>) {
    exists i :: 0 <= i < |ordered| && Implemented(ordered[i].capability)
  }

  ghost predicate AllImplemented(ordered: seq<CapabilityEntry>) {
    forall i :: 0 <= i < |ordered| ==> Implemented(ordered[i].capability)
  }

  function Backed(ordered: seq<CapabilityEntry>): set<string> {
    set i | 0 <= i < |ordered| && Implemented(ordered[i].capability) :: ordered[i].capability
  }

  /** The configured capabilities without a module, in order. */
  function Unbacked(ordered: seq<CapabilityEntry>): seq<string> {
    if ordered == [] then []
    else
      var last := ordered[|ordered| - 1].capability;
      Unbacked(ordered[..|ordered| - 1]) + if Implemented(last) then [] else [last]
  }

  lemma {:induction false} UnbackedEmptyIff(ordered: seq<CapabilityEntry>)
    ensures Unbacked(ordered) == [] <==> AllImplemented(ordered)
    decreases |ordered|
  {
    if ordered != [] {
      var n := |ordered| - 1;
      UnbackedEmptyIff(ordered[..n]);
      if AllImplemented(ordered) {
        assert AllImplemented(ordered[..n]);
      } else if AllImplemented(ordered[..n]) {
        assert forall i :: 0 <= i < n ==> ordered[i] == ordered[..n][i];
      }
    }
  }

  // ----- the mux -----

  /** What a pattern is bound to: a plain handler, or a module behind the payment middleware. */
  datatype Binding = Plain | Paid(capability: string)

  class Mux {
    var registered: set<string>
    var paidCapabilities: set<string>
    var inner: map<string, Binding>
    const slots: nat

    /** The two records of the mux agree with what is bound. */
    ghost predicate Valid()
      reads this
    {
      && slots >= 1
      && registered == inner.Keys
      && (forall p :: p in inner && inner[p].Paid? ==> Tracks(p, inner[p].capability))
      && forall c :: c in paidCapabilities ==> Serves(c)
    }

    ghost predicate Tracks(p: string, capability: string)
      reads this
    {
      capability in paidCapabilities && Implemented(capability) && p == PaidPattern(capability)
    }

    /** A request to the capability's endpoint reaches the payment middleware for it. */
    ghost predicate Serves(capability: string)
      reads this
    {
      Implemented(capability) && PaidPattern(capability) in inner && inner[PaidPattern(capability)] == Paid(capability)
    }

    constructor (maxConcurrent: int)
      ensures Valid() && registered == {} && paidCapabilities == {} && inner == map[]
      ensures slots == if maxConcurrent <= 0 then 1 else maxConcurrent
    {
      slots := if maxConcurrent <= 0 then 1 else maxConcurrent;
      registered, paidCapabilities, inner := {}, {}, map[];
    }

    method Register(verb: string, path: string) returns (ok: bool)
      requires Valid()
      modifies this
      ensures Valid()
      ensures ok <==> Pattern(verb, path) !in old(registered)
      ensures inner == if ok then old(inner)[Pattern(verb, path) := Plain] else old(inner)
      ensures paidCapabilities == old(paidCapabilities)
    {
      var key := Pattern(verb, path);
      if key in registered {
        return false;
      }
      registered := registered + {key};
      inner := inner[key := Plain];
      return true;
    }

    method RegisterPaidRoute(mod: Module) returns (ok: bool)
      requires Valid() && ModuleFor(mod.capability) == Some(mod)
      modifies this
      ensures Valid()
      ensures ok <==> PaidPattern(mod.capability) !in old(registered)
      ensures inner == if ok then old(inner)[PaidPattern(mod.capability) := Paid(mod.capability)] else old(inner)
      ensures paidCapabilities == if ok then old(paidCapabilities) + {mod.capability} else old(paidCapabilities)
    {
      var key := Pattern(mod.verb, mod.path);
      if key in registered {
        return false;
      }
      registered := registered + {key};
      paidCapabilities := paidCapabilities + {mod.capability};
      inner := inner[key := Paid(mod.capability)];
      return true;
    }

    /** Beyond the unpaid routes, only paid ones are bound. */
    ghost predicate OnlyPaidAdded()
      reads this
      requires Valid()
    {
      UNPAID <= registered && forall p :: p in inner && p !in UNPAID ==> inner[p].Paid?
    }

    /** A module collides with what is bound only when its own capability is already there. */
    lemma CollidesIffPresent(c: string)
      requires Valid() && OnlyPaidAdded() && Implemented(c)
      ensures PaidPattern(c) in registered <==> c in paidCapabilities
    {
      PaidIsNotUnpaid(c);
      if PaidPattern(c) in registered {
        PatternsAreDistinct(c, inner[PaidPattern(c)].capability);
      }
    }

    predicate HasPaidCapability(c: string)
      reads this
    {
      c in paidCapabilities
    }
  }

  method RegisterUnpaidHandlers(mux: Mux) returns (ok: bool)
    requires mux.Valid()
    modifies mux
    ensures mux.Valid() && mux.paidCapabilities == old(mux.paidCapabilities)
    ensures old(mux.registered) == {} ==> ok && mux.registered == UNPAID
  {
    HealthPattern();
    OfferingsPattern();
    TicketPattern();
    ok := mux.Register("GET", "/health");
    if ok {
      ok := mux.Register("GET", "/registry/offerings");
    }
    if ok {
      assert Pattern("POST", "/v1/payment/ticket-params")[0] != 'G';
      ok := mux.Register("POST", "/v1/payment/ticket-params");
    }
  }

  /** One module per configured capability that the build knows; the rest only draw a warning.
      A panic happens exactly when an implemented capability is configured twice. */
  method RegisterModules(mux: Mux, ordered: seq<CapabilityEntry>) returns (panicked: bool, count: nat)
    requires mux.Valid() && mux.registered == UNPAID && mux.paidCapabilities == {}
    modifies mux
    ensures mux.Valid()
    ensures panicked <==> RepeatsImplemented(ordered)
    ensures !panicked ==> mux.paidCapabilities == Backed(ordered) && UNPAID <= mux.registered
    ensures !panicked ==> (count == 0 <==> !SomeImplemented(ordered))
  {
    count := 0;
    for i := 0 to |ordered|
      invariant mux.Valid()
      invariant !RepeatsImplemented(ordered[..i])
      invariant mux.paidCapabilities == Backed(ordered[..i])
      invariant mux.OnlyPaidAdded()
      invariant count == 0 <==> !SomeImplemented(ordered[..i])
    {
      var c := ordered[i].capability;
      BackedSnoc(ordered, i);
      match ModuleFor(c)
      case None =>
      case Some(mod) =>
        mux.CollidesIffPresent(c);
        var ok := mux.RegisterPaidRoute(mod);
        if !ok {
          return true, count;
        }
        count := count + 1;
    }
    assert ordered[..|ordered|] == ordered;
    return false, count;
  }

  /** One more entry: what it adds to the backed set, and when it is a repeat. */
  lemma BackedSnoc(ordered: seq<CapabilityEntry>, i: nat)
    requires i < |ordered|
    ensures
      var c := ordered[i].capability;
      && Backed(ordered[..i + 1]) == Backed(ordered[..i]) + (if Implemented(c) then {c} else {})
      && (SomeImplemented(ordered[..i + 1]) <==> SomeImplemented(ordered[..i]) || Implemented(c))
      && (Implemented(c) && c in Backed(ordered[..i]) ==> RepeatsImplemented(ordered))
      && (RepeatsImplemented(ordered[..i + 1]) <==> RepeatsImplemented(ordered[..i]) || c in Backed(ordered[..i]))
  {
    var before, after, c := ordered[..i], ordered[..i + 1], ordered[i].capability;
    assert after[i] == ordered[i];
    assert forall k :: 0 <= k < i ==> after[k] == before[k] == ordered[k];
    if c in Backed(before) {
      var k :| 0 <= k < i && before[k].capability == c;
      assert after[k].capability == after[i].capability && ordered[k].capability == c;
    }
  }

  method MissingCapabilityModules(mux: Mux, ordered: seq<CapabilityEntry>) returns (missing: seq<string>)
    requires mux.paidCapabilities == Backed(ordered)
    ensures missing == Unbacked(ordered)
  {
    missing := [];
    for i := 0 to |ordered|
      invariant missing == Unbacked(ordered[..i])
    {
      assert ordered[..i + 1][..i] == ordered[..i];
      if !mux.HasPaidCapability(ordered[i].capability) {
        missing := missing + [ordered[i].capability];
      }
    }
    assert ordered[..|ordered|] == ordered;
  }

  // ----- the decision -----

  datatype Start = Started | Panicked | NothingRegistered | ModulesMissing(missing: seq<string>)

  /** The module checks over any catalog: each of the four ends, with its exact condition. */
  method Wire(mux: Mux, ordered: seq<CapabilityEntry>) returns (r: Start)
    requires mux.Valid() && mux.registered == {} && mux.paidCapabilities == {}
    modifies mux
    ensures mux.Valid()
    ensures r.Panicked? <==> RepeatsImplemented(ordered)
    ensures r.Started? <==> ordered != [] && AllImplemented(ordered) && !RepeatsImplemented(ordered)
    ensures r.NothingRegistered? <==> !SomeImplemented(ordered)
    ensures r.ModulesMissing? ==> r.missing == Unbacked(ordered) != []
    ensures r.Started? ==> UNPAID <= mux.registered && mux.paidCapabilities == Backed(ordered)
  {
    var ok := RegisterUnpaidHandlers(mux);
    assert ok;
    var panicked, count := RegisterModules(mux, ordered);
    if panicked {
      assert SomeImplemented(ordered);
      return Panicked;
    }
    if count == 0 {
      assert ordered != [] ==> !Implemented(ordered[0].capability);
      return NothingRegistered;
    }
    var missing := MissingCapabilityModules(mux, ordered);
    UnbackedEmptyIff(ordered);
    if |missing| > 0 {
      return ModulesMissing(missing);
    }
    return Started;
  }

  /** The rest of worker.yaml that can refuse a start; the address pattern is library code. */
  datatype Head = Head(
    publisherBlock: bool, protocolVersion: int, paymentDaemon: bool, ethAddressOk: bool,
    httpListen: string, socket: string, maxConcurrent: int)

  const PROTOCOL_VERSION := 1

  datatype HeadFault =
    | PublisherBlock | WrongProtocol | NoPaymentDaemon | BadEthAddress | NoListen | NoSocket | NoConcurrency

  predicate HeadFails(h: Head, fault: HeadFault) {
    match fault
    case PublisherBlock => h.publisherBlock
    case WrongProtocol => h.protocolVersion != 1
    case NoPaymentDaemon => !h.paymentDaemon
    case BadEthAddress => !h.ethAddressOk
    case NoListen => h.httpListen == ""
    case NoSocket => h.socket == ""
    case NoConcurrency => h.maxConcurrent <= 0
  }

  predicate GoodHead(h: Head) {
    && !h.publisherBlock && h.protocolVersion == PROTOCOL_VERSION && h.paymentDaemon && h.ethAddressOk
    && h.httpListen != "" && h.socket != "" && h.maxConcurrent > 0
  }

  function ValidateHead(h: Head): (fault: Option<HeadFault>)
    ensures fault.None? <==> GoodHead(h)
    ensures fault.Some? ==> HeadFails(h, fault.value)
  {
    if h.publisherBlock then Some(PublisherBlock)
    else if h.protocolVersion != PROTOCOL_VERSION then Some(WrongProtocol)
    else if !h.paymentDaemon then Some(NoPaymentDaemon)
    else if !h.ethAddressOk then Some(BadEthAddress)
    else if h.httpListen == "" then Some(NoListen)
    else if h.socket == "" then Some(NoSocket)
    else if h.maxConcurrent <= 0 then Some(NoConcurrency)
    else None
  }

  datatype Boot =
    | BadHead(fault: HeadFault)
    | Invalid(verdict: Verdict)
    | DialFailed
    | DaemonUnreachable
    | DaemonDrift(drift: Drift)
    | Wired(start: Start)

  /** The whole way from a decoded worker.yaml to a serving mux. `dialed` says whether the daemon's
      socket could be dialed; `daemon` is the answer of its catalog call, None when that failed.

      Startup never panics. It succeeds if and only if the head of the file and the catalog are
      valid, the daemon is there, its catalog agrees (when asked to check) and every capability
      is implemented; then every (capability, model) that Lookup can find is served behind the
      payment middleware, and nothing else is. */
  method Run(head: Head, cs: seq<YamlCapability>, urlOk: string -> bool, dialed: bool, verifyDaemon: bool,
             daemon: Option<seq<DaemonCapability>>, mux: Mux)
    returns (r: Boot, cfg: Config)
    requires mux.Valid() && mux.registered == {} && mux.paidCapabilities == {}
    modifies mux
    ensures mux.Valid()
    ensures !r.BadHead? && !r.Invalid? ==> cfg == NewConfig(Project(cs))
    ensures r != Wired(Panicked)
    ensures r.BadHead? <==> !GoodHead(head)
    ensures r.Invalid? <==> GoodHead(head) && !(cs != [] && GoodCapabilities(cs, urlOk))
    ensures r == DialFailed <==> GoodHead(head) && cs != [] && GoodCapabilities(cs, urlOk) && !dialed
    ensures r == DaemonUnreachable || r.DaemonDrift? ==> verifyDaemon && daemon != Some(VisibleCatalog(Project(cs)))
    ensures r == Wired(Started) <==>
            && GoodHead(head) && cs != [] && GoodCapabilities(cs, urlOk) && dialed
            && (verifyDaemon ==> daemon == Some(VisibleCatalog(Project(cs))))
            && forall i :: 0 <= i < |cs| ==> Implemented(cs[i].capability)
    ensures r == Wired(Started) ==>
            forall c, model :: Lookup(cfg, c, model).Some? ==> mux.Serves(c)
    ensures r == Wired(Started) ==>
            forall p :: p in mux.inner && mux.inner[p].Paid? ==>
              exists i :: 0 <= i < |cs| && cs[i].capability == mux.inner[p].capability
  {
    var fault := ValidateHead(head);
    if fault.Some? {
      return BadHead(fault.value), Config([], map[]);
    }
    var verdict := ValidateCapabilities(cs, urlOk);
    if !verdict.Accepted? {
      return Invalid(verdict), Config([], map[]);
    }
    cfg := ProjectFromYAML(cs);
    if !dialed {
      return DialFailed, cfg;
    }
    if verifyDaemon {
      if daemon.None? {
        return DaemonUnreachable, cfg;
      }
      var drift := VerifyDaemonCatalog(cfg, daemon.value);
      if !drift.Agrees? {
        return DaemonDrift(drift), cfg;
      }
    }
    var start := Wire(mux, cfg.ordered);
    ValidatedNeverRepeats(cs, urlOk);
    ProjectedNames(cs);
    if start.Started? {
      forall c, model | Lookup(cfg, c, model).Some? ensures mux.Serves(c) {
        RoutableIsConfigured(cfg.ordered, c, model);
      }
      forall p | p in mux.inner && mux.inner[p].Paid?
        ensures exists i :: 0 <= i < |cs| && cs[i].capability == mux.inner[p].capability
      {
        var i :| 0 <= i < |cfg.ordered| && cfg.ordered[i].capability == mux.inner[p].capability;
        assert cs[i].capability == mux.inner[p].capability;
      }
    }
    return Wired(start), cfg;
  }

  lemma ProjectedNames(cs: seq<YamlCapability>)
    ensures |Project(cs)| == |cs|
    ensures forall i :: 0 <= i < |cs| ==> Project(cs)[i].capability == cs[i].capability
    ensures AllImplemented(Project(cs)) <==> forall i :: 0 <= i < |cs| ==> Implemented(cs[i].capability)
  {
    if AllImplemented(Project(cs)) {
      forall i | 0 <= i < |cs| ensures Implemented(cs[i].capability) {
        assert Implemented(Project(cs)[i].capability);
      }
    }
  }

  /** A validated catalog cannot make registration panic. */
  lemma ValidatedNeverRepeats(cs: seq<YamlCapability>, urlOk: string -> bool)
    requires GoodCapabilities(cs, urlOk)
    ensures !RepeatsImplemented(Project(cs))
  {
    ValidatedIsDistinct(cs, urlOk);
  }

  lemma RoutableIsConfigured(ordered: seq<CapabilityEntry>, capability: string, model: string)
    requires Lookup(NewConfig(ordered), capability, model).Some?
    ensures exists i :: 0 <= i < |ordered| && ordered[i].capability == capability
    ensures AllImplemented(ordered) ==> capability in Backed(ordered)
  {
    var key := RouteKey(capability, model);
    LookupIsLastMatch(ordered, key);
    var i, j :| Matches(ordered, key, i, j);
    assert ordered[i].capability == capability;
  }
}
