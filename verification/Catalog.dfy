/** worker.yaml: validation of the capability catalog, its projection, the flat route index,
    and the startup comparison against the payment daemon's catalog. */
module Catalog {
  import opened Go
  import Codecs

  // ----- data model -----

  /** An optional JSON object of worker.yaml; only its shape matters to validation. */
  datatype YamlObject = Absent | NilObject | Object

  datatype YamlOffering = YamlOffering(id: string, price: string, backendURL: string, constraints: YamlObject)
  datatype YamlCapability =
    YamlCapability(capability: string, workUnit: string, extra: YamlObject, offerings: seq<YamlOffering>)

  datatype OfferingEntry = OfferingEntry(model: string, price: string, backendURL: string)
  datatype CapabilityEntry = CapabilityEntry(capability: string, workUnit: string, offerings: seq<OfferingEntry>)

  datatype RouteKey = RouteKey(capability: string, model: string)
  datatype ModelRoute =
    ModelRoute(capability: string, model: string, workUnit: string, backendURL: string, price: string)

  datatype Config = Config(ordered: seq<CapabilityEntry>, route: map<RouteKey, ModelRoute>)

  datatype DaemonOffering = DaemonOffering(id: string, price: string)
  datatype DaemonCapability = DaemonCapability(capability: string, workUnit: string, offerings: seq<DaemonOffering>)

  // ----- what a valid catalog is -----

  predicate LowerAlnum(c: char) { 'a' <= c <= 'z' || '0' <= c <= '9' }

  /** The pattern ^[a-z][a-z0-9]*:.+$ split at its colon. */
  ghost predicate NameSplitsAt(s: string, colon: int) {
    && 1 <= colon < |s| - 1
    && 'a' <= s[0] <= 'z'
    && (forall k :: 0 <= k < colon ==> LowerAlnum(s[k]))
    && s[colon] == ':'
    && forall k :: colon < k < |s| ==> s[k] != '\n'
  }

  ghost predicate GoodName(s: string) { exists colon :: NameSplitsAt(s, colon) }

  const KNOWN_WORK_UNITS: set<string> :=
    {"token", "character", "audio_second", "image_step_megapixel", "video_frame_megapixel"}

  predicate PositivePrice(price: string) {
    var p := Codecs.ParseDecimal(price);
    p.Some? && p.value > 0
  }

  predicate GoodOffering(m: YamlOffering, urlOk: string -> bool) {
    && m.id != ""
    && PositivePrice(m.price)
    && m.backendURL != ""
    && urlOk(m.backendURL)
    && m.constraints != NilObject
  }

  ghost predicate GoodOfferings(ms: seq<YamlOffering>, urlOk: string -> bool) {
    && (forall j :: 0 <= j < |ms| ==> GoodOffering(ms[j], urlOk))
    && forall j, k :: 0 <= j < k < |ms| ==> ms[j].id != ms[k].id
  }

  ghost predicate GoodCapability(c: YamlCapability, urlOk: string -> bool) {
    && GoodName(c.capability)
    && c.workUnit in KNOWN_WORK_UNITS
    && c.offerings != []
    && c.extra != NilObject
    && GoodOfferings(c.offerings, urlOk)
  }

  ghost predicate GoodCapabilities(cs: seq<YamlCapability>, urlOk: string -> bool) {
    && (forall i :: 0 <= i < |cs| ==> GoodCapability(cs[i], urlOk))
    && forall i, k :: 0 <= i < k < |cs| ==> cs[i].capability != cs[k].capability
  }

  // ----- validation, as the loops do it -----

  datatype OfferingFault = NoID | NoPrice | PriceNotDecimal | PriceNotPositive | NoURL | BadURL | BadConstraints
  datatype Fault =
    | BadName
    | UnknownWorkUnit
    | NoOfferings
    | BadExtra
    | BadOffering(j: nat, fault: OfferingFault)
    | DuplicateOffering(j: nat)
    | DuplicateCapability
  datatype Verdict = Accepted | NoCapabilities | Rejected(i: nat, fault: Fault)

  lemma WorkUnitsKnown(u: string)
    ensures u in KNOWN_WORK_UNITS <==>
            u in {"token", "character", "audio_second", "image_step_megapixel", "video_frame_megapixel"}
  {
  }

  /** What each fault says is wrong with the offering. */
  predicate OfferingFails(m: YamlOffering, urlOk: string -> bool, fault: OfferingFault) {
    match fault
    case NoID => m.id == ""
    case NoPrice => m.price == ""
    case PriceNotDecimal => Codecs.ParseDecimal(m.price).None?
    case PriceNotPositive => Codecs.ParseDecimal(m.price).Some? && Codecs.ParseDecimal(m.price).value <= 0
    case NoURL => m.backendURL == ""
    case BadURL => !urlOk(m.backendURL)
    case BadConstraints => m.constraints == NilObject
  }

  ghost predicate OfferingsFail(ms: seq<YamlOffering>, urlOk: string -> bool, fault: Fault) {
    match fault
    case BadOffering(j, f) => j < |ms| && OfferingFails(ms[j], urlOk, f)
    case DuplicateOffering(j) => j < |ms| && exists k :: 0 <= k < j && ms[k].id == ms[j].id
    case _ => false
  }

  /** And with the entry. */
  ghost predicate EntryFails(c: YamlCapability, urlOk: string -> bool, fault: Fault) {
    match fault
    case BadName => !GoodName(c.capability)
    case UnknownWorkUnit => c.workUnit !in KNOWN_WORK_UNITS
    case NoOfferings => c.offerings == []
    case BadExtra => c.extra == NilObject
    case _ => OfferingsFail(c.offerings, urlOk, fault)
  }

  method MatchName(s: string) returns (ok: bool)
    ensures ok <==> GoodName(s)
  {
    if s == "" || !('a' <= s[0] <= 'z') {
      return false;
    }
    var i := 1;
    while i < |s| && LowerAlnum(s[i])
      invariant 1 <= i <= |s|
      invariant forall k :: 0 <= k < i ==> LowerAlnum(s[k])
    {
      i := i + 1;
    }
    if i >= |s| - 1 || s[i] != ':' {
      assert forall colon :: NameSplitsAt(s, colon) ==> colon == i;
      return false;
    }
    var j := i + 1;
    while j < |s|
      invariant i < j <= |s|
      invariant forall k :: i < k < j ==> s[k] != '\n'
    {
      if s[j] == '\n' {
        assert forall colon :: NameSplitsAt(s, colon) ==> colon == i;
        return false;
      }
      j := j + 1;
    }
    assert NameSplitsAt(s, i);
    return true;
  }

  function ValidateOffering(m: YamlOffering, urlOk: string -> bool): (r: Option<OfferingFault>)
    ensures r.None? <==> GoodOffering(m, urlOk)
    ensures r.Some? ==> OfferingFails(m, urlOk, r.value)
  {
    if m.id == "" then Some(NoID)
    else if m.price == "" then Some(NoPrice)
    else
      match Codecs.ParseDecimal(m.price)
      case None => Some(PriceNotDecimal)
      case Some(price) =>
        if price <= 0 then Some(PriceNotPositive)
        else if m.backendURL == "" then Some(NoURL)
        else if !urlOk(m.backendURL) then Some(BadURL)
        else if m.constraints == NilObject then Some(BadConstraints)
        else None
  }

  method ValidateCapability(c: YamlCapability, urlOk: string -> bool) returns (r: Option<Fault>)
    ensures r.None? <==> GoodCapability(c, urlOk)
    ensures r.Some? ==> EntryFails(c, urlOk, r.value)
  {
    var named := MatchName(c.capability);
    if !named {
      return Some(BadName);
    }
    if c.workUnit !in KNOWN_WORK_UNITS {
      return Some(UnknownWorkUnit);
    }
    if |c.offerings| == 0 {
      return Some(NoOfferings);
    }
    if c.extra == NilObject {
      return Some(BadExtra);
    }
    r := ValidateOfferings(c.offerings, urlOk);
  }

  /** The loop over one entry's offerings. */
  method ValidateOfferings(ms: seq<YamlOffering>, urlOk: string -> bool) returns (r: Option<Fault>)
    ensures r.None? <==> GoodOfferings(ms, urlOk)
    ensures r.Some? ==> OfferingsFail(ms, urlOk, r.value)
  {
    var seen: set<string> := {};
    for j := 0 to |ms|
      invariant seen == set k | 0 <= k < j :: ms[k].id
      invariant GoodOfferings(ms[..j], urlOk)
    {
      var m := ms[j];
      var fault := ValidateOffering(m, urlOk);
      OneMoreOffering(ms, j, urlOk);
      if fault.Some? {
        return Some(BadOffering(j, fault.value));
      }
      if m.id in seen {
        return Some(DuplicateOffering(j));
      }
      seen := seen + {m.id};
    }
    assert ms[..|ms|] == ms;
    return None;
  }

  /** What the loop body decides about one more offering. */
  lemma OneMoreOffering(ms: seq<YamlOffering>, j: nat, urlOk: string -> bool)
    requires j < |ms| && GoodOfferings(ms[..j], urlOk)
    ensures
      var isNew := forall k :: 0 <= k < j ==> ms[k].id != ms[j].id;
      && (GoodOffering(ms[j], urlOk) && isNew ==> GoodOfferings(ms[..j + 1], urlOk))
      && (!GoodOffering(ms[j], urlOk) || !isNew ==> !GoodOfferings(ms, urlOk))
  {
    assert ms[..j + 1] == ms[..j] + [ms[j]];
    assert forall k :: 0 <= k < j ==> ms[..j][k] == ms[k];
  }

  /** Accepts exactly the good, non-empty catalogs; otherwise names the first entry at which
      the catalog stops being good. */
  method ValidateCapabilities(cs: seq<YamlCapability>, urlOk: string -> bool) returns (r: Verdict)
    ensures r.Accepted? <==> cs != [] && GoodCapabilities(cs, urlOk)
    ensures r.NoCapabilities? <==> cs == []
    ensures r.Rejected? && r.i < |cs| ==>
              if r.fault == DuplicateCapability then exists k :: 0 <= k < r.i && cs[k].capability == cs[r.i].capability
              else EntryFails(cs[r.i], urlOk, r.fault)
    ensures r.Rejected? ==> r.i < |cs| && GoodCapabilities(cs[..r.i], urlOk) && !GoodCapabilities(cs[..r.i + 1], urlOk)
  {
    if |cs| == 0 {
      return NoCapabilities;
    }
    var seen: set<string> := {};
    for i := 0 to |cs|
      invariant seen == set k | 0 <= k < i :: cs[k].capability
      invariant GoodCapabilities(cs[..i], urlOk)
    {
      var c := cs[i];
      var fault := ValidateCapability(c, urlOk);
      OneMoreCapability(cs, i, urlOk);
      if fault.Some? {
        return Rejected(i, fault.value);
      }
      if c.capability in seen {
        return Rejected(i, DuplicateCapability);
      }
      seen := seen + {c.capability};
    }
    assert cs[..|cs|] == cs;
    return Accepted;
  }

  /** What the loop body decides about one more entry, for the prefix and for the whole. */
  lemma OneMoreCapability(cs: seq<YamlCapability>, i: nat, urlOk: string -> bool)
    requires i < |cs| && GoodCapabilities(cs[..i], urlOk)
    ensures
      var isNew := forall k :: 0 <= k < i ==> cs[k].capability != cs[i].capability;
      && (GoodCapabilities(cs[..i + 1], urlOk) <==> GoodCapability(cs[i], urlOk) && isNew)
      && (!GoodCapability(cs[i], urlOk) || !isNew ==> !GoodCapabilities(cs, urlOk))
  {
    var more := cs[..i + 1];
    assert more[i] == cs[i];
    assert forall k :: 0 <= k < i ==> more[k] == cs[k] == cs[..i][k];
  }

  // ----- projection and index -----

  function ProjectOffering(m: YamlOffering): OfferingEntry {
    OfferingEntry(m.id, m.price, m.backendURL)
  }

  function ProjectCapability(c: YamlCapability): CapabilityEntry {
    CapabilityEntry(c.capability, c.workUnit,
                    seq(|c.offerings|, j requires 0 <= j < |c.offerings| => ProjectOffering(c.offerings[j])))
  }

  function Project(cs: seq<YamlCapability>): seq<CapabilityEntry> {
    seq(|cs|, i requires 0 <= i < |cs| => ProjectCapability(cs[i]))
  }

  /** The catalog holds what the file says, entry by entry and offering by offering. */
  ghost predicate SaysTheFile(ordered: seq<CapabilityEntry>, cs: seq<YamlCapability>) {
    && |ordered| == |cs|
    && (forall i :: 0 <= i < |cs| ==>
          && ordered[i].capability == cs[i].capability
          && ordered[i].workUnit == cs[i].workUnit
          && |ordered[i].offerings| == |cs[i].offerings|)
    && forall i, j :: 0 <= i < |cs| && 0 <= j < |cs[i].offerings| ==>
         && ordered[i].offerings[j].model == cs[i].offerings[j].id
         && ordered[i].offerings[j].price == cs[i].offerings[j].price
         && ordered[i].offerings[j].backendURL == cs[i].offerings[j].backendURL
  }

  lemma ProjectionSaysTheFile(cs: seq<YamlCapability>)
    ensures SaysTheFile(Project(cs), cs)
  {
  }

  method ProjectFromYAML(cs: seq<YamlCapability>) returns (cfg: Config)
    ensures cfg == NewConfig(Project(cs)) && SaysTheFile(cfg.ordered, cs)
  {
    ProjectionSaysTheFile(cs);
    var ordered: seq<CapabilityEntry> := [];
    for i := 0 to |cs|
      invariant ordered == Project(cs[..i])
    {
      var entry := CapabilityEntry(cs[i].capability, cs[i].workUnit, []);
      for j := 0 to |cs[i].offerings|
        invariant entry == ProjectCapability(cs[i].(offerings := cs[i].offerings[..j]))
      {
        entry := entry.(offerings := entry.offerings + [ProjectOffering(cs[i].offerings[j])]);
      }
      assert cs[i].(offerings := cs[i].offerings[..|cs[i].offerings|]) == cs[i];
      ordered := ordered + [entry];
    }
    assert cs[..|cs|] == cs;
    cfg := New(ordered);
  }

  function RouteAt(e: CapabilityEntry, j: nat): ModelRoute
    requires j < |e.offerings|
  {
    var m := e.offerings[j];
    ModelRoute(e.capability, m.model, e.workUnit, m.backendURL, m.price)
  }

  /** The index after the first n offerings of one entry are written over m. */
  function AddOfferings(m: map<RouteKey, ModelRoute>, e: CapabilityEntry, n: nat): map<RouteKey, ModelRoute>
    requires n <= |e.offerings|
  {
    if n == 0 then m
    else AddOfferings(m, e, n - 1)[RouteKey(e.capability, e.offerings[n - 1].model) := RouteAt(e, n - 1)]
  }

  function Index(ordered: seq<CapabilityEntry>): map<RouteKey, ModelRoute> {
    if ordered == [] then map[]
    else
      var e := ordered[|ordered| - 1];
      AddOfferings(Index(ordered[..|ordered| - 1]), e, |e.offerings|)
  }

  function NewConfig(ordered: seq<CapabilityEntry>): Config {
    Config(ordered, Index(ordered))
  }

  method New(ordered: seq<CapabilityEntry>) returns (cfg: Config)
    ensures cfg == NewConfig(ordered)
  {
    var route: map<RouteKey, ModelRoute> := map[];
    for i := 0 to |ordered|
      invariant route == Index(ordered[..i])
    {
      var entry := ordered[i];
      ghost var before := route;
      for j := 0 to |entry.offerings|
        invariant route == AddOfferings(before, entry, j)
      {
        var m := entry.offerings[j];
        route := route[RouteKey(entry.capability, m.model) :=
                 ModelRoute(entry.capability, m.model, entry.workUnit, m.backendURL, m.price)];
      }
      assert ordered[..i + 1][..i] == ordered[..i];
    }
    assert ordered[..|ordered|] == ordered;
    cfg := Config(ordered, route);
  }

  function Lookup(cfg: Config, capability: string, model: string): Option<ModelRoute> {
    var key := RouteKey(capability, model);
    if key in cfg.route then Some(cfg.route[key]) else None
  }

  // ----- Lookup against a linear scan -----

  ghost predicate Matches(ordered: seq<CapabilityEntry>, key: RouteKey, i: int, j: int) {
    && 0 <= i < |ordered|
    && ordered[i].capability == key.capability
    && 0 <= j < |ordered[i].offerings|
    && ordered[i].offerings[j].model == key.model
  }

  /** (i, j) is the last place at which a scan of the catalog meets the key. */
  ghost predicate LastMatch(ordered: seq<CapabilityEntry>, key: RouteKey, i: int, j: int) {
    && Matches(ordered, key, i, j)
    && forall p, q :: Matches(ordered, key, p, q) ==> p < i || (p == i && q <= j)
  }

  /** A key of another offering keeps what it had. */
  lemma {:induction false} AddOfferingsMiss(m: map<RouteKey, ModelRoute>, e: CapabilityEntry, n: nat, key: RouteKey)
    requires n <= |e.offerings|
    requires forall j :: 0 <= j < n ==> key != RouteKey(e.capability, e.offerings[j].model)
    ensures
      var r := AddOfferings(m, e, n);
      (key in r <==> key in m) && (key in m ==> r[key] == m[key])
  {
    if n > 0 {
      AddOfferingsMiss(m, e, n - 1, key);
    }
  }

  /** A key of several offerings gets the last of them. */
  lemma {:induction false} AddOfferingsHit(m: map<RouteKey, ModelRoute>, e: CapabilityEntry, n: nat, j: nat)
    requires j < n <= |e.offerings|
    requires forall q :: j < q < n ==> e.offerings[q].model != e.offerings[j].model
    ensures
      var r, key := AddOfferings(m, e, n), RouteKey(e.capability, e.offerings[j].model);
      key in r && r[key] == RouteAt(e, j)
  {
    if j < n - 1 {
      AddOfferingsHit(m, e, n - 1, j);
    }
  }

  lemma LastOfferingExists(e: CapabilityEntry, key: RouteKey, n: nat) returns (j: int)
    requires n <= |e.offerings|
    requires exists q :: 0 <= q < n && e.offerings[q].model == key.model
    ensures 0 <= j < n && e.offerings[j].model == key.model
    ensures forall q :: j < q < n ==> e.offerings[q].model != key.model
  {
    if e.offerings[n - 1].model == key.model {
      j := n - 1;
    } else {
      j := LastOfferingExists(e, key, n - 1);
    }
  }

  /** Lookup on the built index is the linear scan: the last match when there is one, and a
      miss exactly when the catalog holds no match. No assumption on the catalog. */
  lemma {:induction false} LookupIsLastMatch(ordered: seq<CapabilityEntry>, key: RouteKey)
    ensures forall i, j :: LastMatch(ordered, key, i, j) ==>
              Lookup(NewConfig(ordered), key.capability, key.model)
              == Some(ModelRoute(key.capability, key.model, ordered[i].workUnit,
                                 ordered[i].offerings[j].backendURL, ordered[i].offerings[j].price))
    ensures Lookup(NewConfig(ordered), key.capability, key.model).None?
            <==> forall i, j :: !Matches(ordered, key, i, j)
    decreases |ordered|
  {
    if ordered != [] {
      var n := |ordered| - 1;
      var init, e := ordered[..n], ordered[n];
      LookupIsLastMatch(init, key);
      if e.capability == key.capability && exists q :: 0 <= q < |e.offerings| && e.offerings[q].model == key.model {
        var j := LastOfferingExists(e, key, |e.offerings|);
        AddOfferingsHit(Index(init), e, |e.offerings|, j);
        assert Matches(ordered, key, n, j);
        assert key == RouteKey(e.capability, e.offerings[j].model);
        assert forall p, q :: LastMatch(ordered, key, p, q) ==> p == n && q == j;
      } else {
        AddOfferingsMiss(Index(init), e, |e.offerings|, key);
        assert forall p, q :: Matches(ordered, key, p, q) <==> Matches(init, key, p, q);
        assert forall p, q :: LastMatch(ordered, key, p, q) ==> LastMatch(init, key, p, q);
        assert forall p, q :: Matches(init, key, p, q) ==> ordered[p] == init[p];
      }
    }
  }

  // ----- after validation -----

  ghost predicate Distinct(ordered: seq<CapabilityEntry>) {
    && (forall i, k :: 0 <= i < k < |ordered| ==> ordered[i].capability != ordered[k].capability)
    && forall i, j, k :: 0 <= i < |ordered| && 0 <= j < k < |ordered[i].offerings| ==>
         ordered[i].offerings[j].model != ordered[i].offerings[k].model
  }

  lemma ValidatedIsDistinct(cs: seq<YamlCapability>, urlOk: string -> bool)
    requires GoodCapabilities(cs, urlOk)
    ensures Distinct(Project(cs))
  {
    var ordered := Project(cs);
    forall i, j, k | 0 <= i < |ordered| && 0 <= j < k < |ordered[i].offerings|
      ensures ordered[i].offerings[j].model != ordered[i].offerings[k].model
    {
      assert GoodCapability(cs[i], urlOk);
    }
  }

  /** In a validated catalog a key matches at most one place, and Lookup returns that place. */
  lemma ValidatedLookupIsUniqueMatch(cs: seq<YamlCapability>, urlOk: string -> bool, key: RouteKey, i: int, j: int)
    requires GoodCapabilities(cs, urlOk)
    requires Matches(Project(cs), key, i, j)
    ensures Lookup(NewConfig(Project(cs)), key.capability, key.model) == Some(RouteAt(Project(cs)[i], j))
    ensures forall p, q :: Matches(Project(cs), key, p, q) ==> p == i && q == j
  {
    var ordered := Project(cs);
    ValidatedIsDistinct(cs, urlOk);
    forall p, q | Matches(ordered, key, p, q) ensures p == i && q == j {
      assert p == i;
    }
    LookupIsLastMatch(ordered, key);
    assert LastMatch(ordered, key, i, j);
  }

  /** From the validated file: the route of an offering has the capability, id, work unit, backend
      URL and price that the file gives it. */
  lemma FileRoute(cs: seq<YamlCapability>, urlOk: string -> bool, i: nat, j: nat)
    requires GoodCapabilities(cs, urlOk) && i < |cs| && j < |cs[i].offerings|
    ensures
      var m := cs[i].offerings[j];
      Lookup(NewConfig(Project(cs)), cs[i].capability, m.id)
      == Some(ModelRoute(cs[i].capability, m.id, cs[i].workUnit, m.backendURL, m.price))
  {
    var key := RouteKey(cs[i].capability, cs[i].offerings[j].id);
    ProjectionSaysTheFile(cs);
    assert Matches(Project(cs), key, i, j);
    ValidatedLookupIsUniqueMatch(cs, urlOk, key, i, j);
  }

  /** And every route is that of some offering of the file. */
  lemma RouteIsInFile(cs: seq<YamlCapability>, capability: string, model: string) returns (i: nat, j: nat)
    requires Lookup(NewConfig(Project(cs)), capability, model).Some?
    ensures i < |cs| && j < |cs[i].offerings| && cs[i].capability == capability && cs[i].offerings[j].id == model
  {
    var key := RouteKey(capability, model);
    LookupIsLastMatch(Project(cs), key);
    ProjectionSaysTheFile(cs);
    i, j :| Matches(Project(cs), key, i, j);
  }

  function TotalOfferings(ordered: seq<CapabilityEntry>): nat {
    if ordered == [] then 0
    else TotalOfferings(ordered[..|ordered| - 1]) + |ordered[|ordered| - 1].offerings|
  }

  lemma {:induction false} AddOfferingsSize(m: map<RouteKey, ModelRoute>, e: CapabilityEntry, n: nat)
    requires n <= |e.offerings|
    requires forall j, k :: 0 <= j < k < |e.offerings| ==> e.offerings[j].model != e.offerings[k].model
    requires forall key :: key in m ==> key.capability != e.capability
    ensures |AddOfferings(m, e, n)| == |m| + n
  {
    if n > 0 {
      AddOfferingsSize(m, e, n - 1);
      var key := RouteKey(e.capability, e.offerings[n - 1].model);
      AddOfferingsMiss(m, e, n - 1, key);
    }
  }

  lemma {:induction false} DistinctIndexSize(ordered: seq<CapabilityEntry>)
    requires Distinct(ordered)
    ensures |Index(ordered)| == TotalOfferings(ordered)
    decreases |ordered|
  {
    if ordered != [] {
      var n := |ordered| - 1;
      var init, e := ordered[..n], ordered[n];
      assert Distinct(init) by {
        assert forall i :: 0 <= i < n ==> init[i] == ordered[i];
      }
      DistinctIndexSize(init);
      forall key | key in Index(init) ensures key.capability != e.capability {
        LookupIsLastMatch(init, key);
        var i, j :| Matches(init, key, i, j);
        assert ordered[i] == init[i];
      }
      AddOfferingsSize(Index(init), e, |e.offerings|);
    }
  }

  /** No offering of a validated catalog is shadowed: the index has one route per offering. */
  lemma ValidatedIndexSize(cs: seq<YamlCapability>, urlOk: string -> bool)
    requires GoodCapabilities(cs, urlOk)
    ensures |NewConfig(Project(cs)).route| == TotalOfferings(Project(cs))
  {
    ValidatedIsDistinct(cs, urlOk);
    DistinctIndexSize(Project(cs));
  }

  // ----- daemon cross-check -----

  function VisibleOffering(o: OfferingEntry): DaemonOffering { DaemonOffering(o.model, o.price) }

  /** What of an entry the daemon also sees: everything but the backend URL. */
  function Visible(e: CapabilityEntry): DaemonCapability {
    DaemonCapability(e.capability, e.workUnit,
                     seq(|e.offerings|, j requires 0 <= j < |e.offerings| => VisibleOffering(e.offerings[j])))
  }

  function VisibleCatalog(ordered: seq<CapabilityEntry>): seq<DaemonCapability> {
    seq(|ordered|, i requires 0 <= i < |ordered| => Visible(ordered[i]))
  }

  datatype Drift =
    | Agrees
    | CapabilityCount
    | CapabilityName(i: nat)
    | WorkUnit(i: nat)
    | OfferingCount(i: nat)
    | OfferingID(i: nat, j: nat)
    | OfferingPrice(i: nat, j: nat)

  /** The difference that a drift report names is there. */
  ghost predicate Differs(ordered: seq<CapabilityEntry>, daemon: seq<DaemonCapability>, r: Drift) {
    match r
    case Agrees => true
    case CapabilityCount => |ordered| != |daemon|
    case CapabilityName(i) => i < |ordered| && i < |daemon| && ordered[i].capability != daemon[i].capability
    case WorkUnit(i) => i < |ordered| && i < |daemon| && ordered[i].workUnit != daemon[i].workUnit
    case OfferingCount(i) => i < |ordered| && i < |daemon| && |ordered[i].offerings| != |daemon[i].offerings|
    case OfferingID(i, j) => SamePlace(ordered, daemon, i, j) && ordered[i].offerings[j].model != daemon[i].offerings[j].id
    case OfferingPrice(i, j) => SamePlace(ordered, daemon, i, j) && ordered[i].offerings[j].price != daemon[i].offerings[j].price
  }

  predicate SamePlace(ordered: seq<CapabilityEntry>, daemon: seq<DaemonCapability>, i: nat, j: nat) {
    i < |ordered| && i < |daemon| && j < |ordered[i].offerings| && j < |daemon[i].offerings|
  }

  method VerifyDaemonCatalog(cfg: Config, daemon: seq<DaemonCapability>) returns (r: Drift)
    ensures r.Agrees? <==> VisibleCatalog(cfg.ordered) == daemon
    ensures Differs(cfg.ordered, daemon, r)
  {
    if |daemon| != |cfg.ordered| {
      return CapabilityCount;
    }
    ghost var mine := VisibleCatalog(cfg.ordered);
    for i := 0 to |cfg.ordered|
      invariant mine[..i] == daemon[..i]
    {
      var cfgCap, daemonCap := cfg.ordered[i], daemon[i];
      assert mine[i] == Visible(cfgCap);
      if cfgCap.capability != daemonCap.capability {
        return CapabilityName(i);
      }
      if cfgCap.workUnit != daemonCap.workUnit {
        return WorkUnit(i);
      }
      if |daemonCap.offerings| != |cfgCap.offerings| {
        return OfferingCount(i);
      }
      for j := 0 to |cfgCap.offerings|
        invariant forall q :: 0 <= q < j ==> mine[i].offerings[q] == daemonCap.offerings[q]
      {
        var mineOffering, daemonOffering := cfgCap.offerings[j], daemonCap.offerings[j];
        assert mine[i].offerings[j] == VisibleOffering(mineOffering);
        if mineOffering.model != daemonOffering.id {
          return OfferingID(i, j);
        }
        if mineOffering.price != daemonOffering.price {
          return OfferingPrice(i, j);
        }
      }
      assert mine[i].offerings == daemonCap.offerings;
    }
    assert mine[..|mine|] == mine && daemon[..|daemon|] == daemon;
    return Agrees;
  }

  ghost predicate DaemonMatches(daemon: seq<DaemonCapability>, r: ModelRoute, i: int, j: int) {
    && 0 <= i < |daemon|
    && daemon[i].capability == r.capability
    && 0 <= j < |daemon[i].offerings|
    && daemon[i].offerings[j].id == r.model
  }

  /** After validation and a clean cross-check, every route that Lookup can return names one
      daemon offering, with the same work unit and price, and the price is a positive integer. */
  lemma RouteIsBackedByDaemon(cs: seq<YamlCapability>, urlOk: string -> bool, daemon: seq<DaemonCapability>,
                              capability: string, model: string)
    returns (i: int, j: int)
    requires GoodCapabilities(cs, urlOk)
    requires VisibleCatalog(NewConfig(Project(cs)).ordered) == daemon
    requires Lookup(NewConfig(Project(cs)), capability, model).Some?
    ensures
      var r := Lookup(NewConfig(Project(cs)), capability, model).value;
      && r.capability == capability && r.model == model
      && PositivePrice(r.price)
      && DaemonMatches(daemon, r, i, j)
      && daemon[i].workUnit == r.workUnit && daemon[i].offerings[j].price == r.price
      && forall p, q :: DaemonMatches(daemon, r, p, q) ==> p == i && q == j
  {
    var ordered := Project(cs);
    var key := RouteKey(capability, model);
    LookupIsLastMatch(ordered, key);
    i, j :| Matches(ordered, key, i, j);
    ValidatedLookupIsUniqueMatch(cs, urlOk, key, i, j);
    assert GoodCapability(cs[i], urlOk);
    assert GoodOffering(cs[i].offerings[j], urlOk);
    assert daemon[i] == Visible(ordered[i]);
    forall p, q | DaemonMatches(daemon, RouteAt(ordered[i], j), p, q) ensures p == i && q == j {
      assert daemon[p] == Visible(ordered[p]);
      assert daemon[p].offerings[q] == VisibleOffering(ordered[p].offerings[q]);
      assert Matches(ordered, key, p, q);
    }
  }

  /** The invalid-price branch of the middleware is dead code for a validated catalog. */
  lemma ValidatedPriceParses(cs: seq<YamlCapability>, urlOk: string -> bool, capability: string, model: string)
    requires GoodCapabilities(cs, urlOk)
    requires Lookup(NewConfig(Project(cs)), capability, model).Some?
    ensures PositivePrice(Lookup(NewConfig(Project(cs)), capability, model).value.price)
  {
    var _, _ := RouteIsBackedByDaemon(cs, urlOk, VisibleCatalog(Project(cs)), capability, model);
  }

  /** The price string the daemon reports is the canonical spelling of an int64, so a catalog
      that passes the cross-check spells every price canonically: a validated "+7" or "007",
      or a price above MaxInt64, is refused at startup. */
  lemma VerifiedPriceIsCanonicalInt64(o: OfferingEntry, info: Option<Codecs.PriceInfo>)
    requires PositivePrice(o.price)
    requires VisibleOffering(o).price == Codecs.PriceInfoToWeiString(info)
    ensures Codecs.Canonical(o.price)
    ensures 0 < Codecs.ParseDecimal(o.price).value <= MAX_INT64
  {
    Codecs.DaemonPriceIsCanonicalInt64(info);
    var n: int64 :| o.price == Codecs.FormatInt(n);
    Codecs.ParseFormatInt(n);
  }
}
