/** Metering of the two image endpoints: n * steps * width * height in megapixels, rounded up.
    Generations read JSON fields, edits read form fields. */
module Images {
  import opened Go
  import opened Metering
  import opened Form
  import Codecs

  const DEFAULT_N: int64 := 1
  const DEFAULT_STEPS: int64 := 30
  const DEFAULT_SIZE := SizeText(1024, 1024)
  const MEGAPIXEL: int64 := 1_000_000

  function SizeText(w: int64, h: int64): string { Codecs.FormatInt(w) + "x" + Codecs.FormatInt(h) }

  // ----- library pieces -----

  /** `strconv.Atoi` on a 64-bit platform. */
  function Atoi(s: string): Option<int64> {
    match Codecs.ParseDecimal(s)
    case None => None
    case Some(v) => if MIN_INT64 <= v <= MAX_INT64 then Some(v) else None
  }

  /** Lower case of the ASCII letters. No other letter has an x, a digit, a sign or a blank as its
      lower case, so none can change what a size parses to. */
  function LowerChar(c: char): char {
    if 'A' <= c <= 'Z' then (c as int + 32) as char else c
  }

  function ToLower(s: string): (r: string)
    ensures |r| == |s|
  {
    seq(|s|, i requires 0 <= i < |s| => LowerChar(s[i]))
  }

  /** The parts with some text put before the first, or behind the last. */
  function PutFront(lead: string, parts: seq<string>): (r: seq<string>)
    requires |parts| >= 1
    ensures |r| == |parts|
  {
    [lead + parts[0]] + parts[1..]
  }

  function PutBack(parts: seq<string>, tail: string): (r: seq<string>)
    requires |parts| >= 1
    ensures |r| == |parts|
  {
    parts[..|parts| - 1] + [parts[|parts| - 1] + tail]
  }

  function Split(s: string, sep: char): (parts: seq<string>)
    ensures |parts| >= 1
  {
    if s == "" then [""]
    else
      var later := Split(s[1..], sep);
      if s[0] == sep then [""] + later else PutFront([s[0]], later)
  }

  // ----- size -----

  function Side(part: string): Option<int64> {
    var v := Atoi(TrimSpace(part));
    if v.Some? && v.value > 0 then v else None
  }

  datatype Size = Size(w: int64, h: int64)

  /** "WxH" with positive sides; None is the error. */
  function ParseWxH(size: string): (r: Option<Size>)
    ensures r.Some? ==> r.value.w > 0 && r.value.h > 0
  {
    SizeOfParts(Split(ToLower(size), 'x'))
  }

  function SizeOfParts(parts: seq<string>): (r: Option<Size>)
    ensures r.Some? ==> r.value.w > 0 && r.value.h > 0
  {
    if |parts| != 2 then None
    else
      var w, h := Side(parts[0]), Side(parts[1]);
      if w.Some? && h.Some? then Some(Size(w.value, h.value)) else None
  }

  predicate MeansDefault(size: string) { size == "" || size == "auto" }

  function Resolved(size: string): string { if MeansDefault(size) then DEFAULT_SIZE else size }

  ghost predicate Without(s: string, sep: char) { forall i :: 0 <= i < |s| ==> s[i] != sep }

  lemma {:induction false} SplitLead(lead: string, s: string, sep: char)
    requires Without(lead, sep)
    ensures Split(lead + s, sep) == PutFront(lead, Split(s, sep))
    decreases |lead|
  {
    var parts := Split(s, sep);
    if lead == "" {
      assert lead + s == s && lead + parts[0] == parts[0];
    } else {
      assert (lead + s)[1..] == lead[1..] + s;
      SplitLead(lead[1..], s, sep);
      assert [lead[0]] + (lead[1..] + parts[0]) == lead + parts[0];
    }
  }

  lemma FrontThenBack(lead: string, parts: seq<string>, tail: string)
    requires |parts| >= 1
    ensures PutFront(lead, PutBack(parts, tail)) == PutBack(PutFront(lead, parts), tail)
  {
    if |parts| == 1 {
      assert lead + (parts[0] + tail) == lead + parts[0] + tail;
    }
  }

  lemma {:induction false} SplitTail(s: string, tail: string, sep: char)
    requires Without(tail, sep)
    ensures Split(s + tail, sep) == PutBack(Split(s, sep), tail)
    decreases |s|
  {
    if s == "" {
      NoSeparatorNoSplit(tail, sep);
      assert s + tail == tail;
    } else {
      SplitTail(s[1..], tail, sep);
      assert (s + tail)[0] == s[0] && (s + tail)[1..] == s[1..] + tail;
      FrontThenBack([s[0]], Split(s[1..], sep), tail);
      assert PutBack([""] + Split(s[1..], sep), tail) == [""] + PutBack(Split(s[1..], sep), tail);
    }
  }

  lemma LowerBlank(s: string)
    requires Blank(s)
    ensures ToLower(s) == s && Without(s, 'x')
  {
  }

  lemma Regroup(a: string, b: string, c: string, d: string, e: string)
    ensures a + (b + c + d) + e == (a + b) + c + (d + e)
  {
  }

  lemma PaddedTrim(lead: string, s: string, tail: string)
    requires Blank(lead) && Blank(tail)
    ensures TrimSpace(lead + s + tail) == TrimSpace(s)
  {
    var l, t := TrimSpaceSplits(s);
    TrimSpaceIs(lead + l, TrimSpace(s), t + tail);
    Regroup(lead, l, TrimSpace(s), t, tail);
  }

  lemma PaddedSide(lead: string, part: string, tail: string, padded: string)
    requires Blank(lead) && Blank(tail) && padded == lead + part + tail
    ensures Side(padded) == Side(part)
  {
    assert TrimSpace(padded) == TrimSpace(part) by {
      PaddedTrim(lead, part, tail);
    }
  }

  lemma LowerPadded(lead: string, s: string, tail: string)
    requires Blank(lead) && Blank(tail)
    ensures ToLower(lead + s + tail) == lead + (ToLower(s) + tail)
  {
    LowerBlank(lead);
    LowerBlank(tail);
  }

  lemma PaddedSplit(lead: string, s: string, tail: string)
    requires Blank(lead) && Blank(tail)
    ensures Split(lead + (s + tail), 'x') == PutFront(lead, PutBack(Split(s, 'x'), tail))
  {
    LowerBlank(lead);
    LowerBlank(tail);
    SplitTail(s, tail, 'x');
    SplitLead(lead, s + tail, 'x');
  }

  lemma PaddedParts(lead: string, parts: seq<string>, tail: string)
    requires Blank(lead) && Blank(tail) && |parts| >= 1
    ensures SizeOfParts(PutFront(lead, PutBack(parts, tail))) == SizeOfParts(parts)
  {
    if |parts| == 2 {
      var w, h := lead + parts[0], parts[1] + tail;
      assert PutFront(lead, PutBack(parts, tail)) == [w, h];
      assert w == lead + parts[0] + "" && h == "" + parts[1] + tail;
      PaddedSide(lead, parts[0], "", w);
      PaddedSide("", parts[1], tail, h);
    }
  }

  /** Blanks around a size never matter to the WxH parser. */
  lemma PaddedSize(lead: string, s: string, tail: string)
    requires Blank(lead) && Blank(tail)
    ensures ParseWxH(lead + s + tail) == ParseWxH(s)
  {
    LowerPadded(lead, s, tail);
    PaddedSplit(lead, ToLower(s), tail);
    PaddedParts(lead, Split(ToLower(s), 'x'), tail);
  }

  lemma NoSeparatorNoSplit(s: string, sep: char)
    requires Without(s, sep)
    ensures Split(s, sep) == [s]
  {
    SplitLead(s, "", sep);
    assert s + "" == s;
    assert Split("", sep) == [""];
  }

  lemma SizeOfSides(a: string, b: string)
    requires Codecs.AllDigits(a) && Codecs.AllDigits(b)
    ensures ParseWxH(a + "x" + b) == SizeOfParts([a, b])
  {
    var s := a + "x" + b;
    assert ToLower(s) == s == a + ("x" + b);
    SplitLead(a, "x" + b, 'x');
    assert ("x" + b)[1..] == b;
    NoSeparatorNoSplit(b, 'x');
    assert Split("x" + b, 'x') == ["", b];
    assert a + "" == a;
  }

  /** Every positive pair survives being written as WxH. */
  lemma SizeRoundTrip(w: int64, h: int64)
    requires w > 0 && h > 0
    ensures ParseWxH(SizeText(w, h)) == Some(Size(w, h))
  {
    SizeOfSides(Codecs.FormatInt(w), Codecs.FormatInt(h));
    SideOfNumber(w);
    SideOfNumber(h);
  }

  lemma SideOfNumber(w: int64)
    requires w > 0
    ensures Side(Codecs.FormatInt(w)) == Some(w)
  {
    AtoiFormat(w);
  }

  lemma AtoiFormat(v: int64)
    ensures TrimSpace(Codecs.FormatInt(v)) == Codecs.FormatInt(v)
    ensures Atoi(Codecs.FormatInt(v)) == Some(v)
  {
    Codecs.ParseFormatInt(v);
    Codecs.FormatIsTrimmed(v);
  }

  /** Atoi of any decimal integer: itself if it fits in 64 bits, an error if not. */
  lemma AtoiMeans(v: int)
    ensures Atoi(Codecs.FormatInt(v)) == if MIN_INT64 <= v <= MAX_INT64 then Some(v) else None
  {
    Codecs.ParseFormatInt(v);
  }

  /** An upper-case X separates just as well. */
  lemma UpperXSeparates(a: string, b: string)
    requires Codecs.AllDigits(a) && Codecs.AllDigits(b)
    ensures ParseWxH(a + "X" + b) == ParseWxH(a + "x" + b)
  {
    assert ToLower(a + "X" + b) == a + "x" + b == ToLower(a + "x" + b);
  }

  lemma {:induction false} SplitInTwo(s: string, sep: char) returns (k: nat)
    requires |Split(s, sep)| == 2
    ensures k < |s| && s[k] == sep && Without(s[..k], sep) && Without(s[k + 1..], sep)
    ensures Split(s, sep) == [s[..k], s[k + 1..]]
    decreases |s|
  {
    if s[0] == sep {
      k := 0;
      SplitInOne(s[1..], sep);
    } else {
      var j := SplitInTwo(s[1..], sep);
      k := j + 1;
      assert s[..k] == [s[0]] + s[1..][..j] && s[k + 1..] == s[1..][j + 1..];
    }
  }

  lemma {:induction false} SplitInOne(s: string, sep: char)
    requires |Split(s, sep)| == 1
    ensures Without(s, sep) && Split(s, sep) == [s]
    decreases |s|
  {
    if s != "" {
      SplitInOne(s[1..], sep);
      assert [s[0]] + s[1..] == s;
    }
  }

  /** Whatever parses is two positive sides around the only x, of either case. */
  lemma SizeNeedsTwoSides(s: string) returns (k: nat)
    requires ParseWxH(s).Some?
    ensures
      k < |s| && (s[k] == 'x' || s[k] == 'X')
      && (forall i :: 0 <= i < |s| && i != k ==> s[i] != 'x' && s[i] != 'X')
      && Side(ToLower(s)[..k]) == Some(ParseWxH(s).value.w) && Side(ToLower(s)[k + 1..]) == Some(ParseWxH(s).value.h)
  {
    var low := ToLower(s);
    k := SplitInTwo(low, 'x');
    OnlyHere(low, k, 'x');
    LowerX(s);
  }

  lemma OnlyHere(s: string, k: nat, sep: char)
    requires k < |s| && Without(s[..k], sep) && Without(s[k + 1..], sep)
    ensures forall i :: 0 <= i < |s| && i != k ==> s[i] != sep
  {
    forall i | 0 <= i < |s| && i != k ensures s[i] != sep {
      if i < k {
        assert s[..k][i] != sep;
      } else {
        assert s[k + 1..][i - k - 1] != sep;
      }
    }
  }

  lemma LowerX(s: string)
    ensures forall i :: 0 <= i < |s| ==> (ToLower(s)[i] == 'x' <==> s[i] == 'x' || s[i] == 'X')
  {
  }

  // ----- units -----

  datatype Factors = Factors(n: int64, steps: int64, w: int64, h: int64)

  predicate Positive(f: Factors) { f.n > 0 && f.steps > 0 && f.w > 0 && f.h > 0 }

  function Product(f: Factors): int { f.n * f.steps * f.w * f.h }

  /** The product, wrapping after each multiplication as the machine does, in megapixels. */
  function Units(f: Factors): int64 {
    RoundUp(Wrap64(Wrap64(Wrap64(f.n * f.steps) * f.w) * f.h), MEGAPIXEL)
  }

  lemma WrapOnce(f: Factors)
    ensures Units(f) == RoundUp(Wrap64(Product(f)), MEGAPIXEL)
  {
    var p := f.n * f.steps;
    WrapMul(p, f.w);
    WrapMul(p * f.w, f.h);
    WrapMul(Wrap64(p) * f.w, f.h);
    assert Wrap64(Wrap64(p) * f.w) == Wrap64(p * f.w);
  }

  lemma FactorBound(a: int, b: int)
    requires a > 0 && b > 0
    ensures a <= a * b && a * b > 0
  {
    MulMono(1, b, a);
  }

  /** For positive factors the units are the exact ceiling of the megapixel product if and only
      if that product plus 999,999 fits in an int64; then no partial product overflows either,
      and at least one unit is charged. Every request beyond that is charged for fewer pixels than
      it asks for. */
  lemma UnitsExactIff(f: Factors)
    requires Positive(f)
    ensures IsCeiling(Units(f), Product(f), MEGAPIXEL) <==> Product(f) + 999_999 <= MAX_INT64
    ensures Product(f) + 999_999 > MAX_INT64 ==> Units(f) * MEGAPIXEL < Product(f)
    ensures Product(f) + 999_999 <= MAX_INT64 ==>
            f.n * f.steps <= MAX_INT64 && f.n * f.steps * f.w <= MAX_INT64 && Units(f) >= 1
  {
    FactorBound(f.n, f.steps);
    FactorBound(f.n * f.steps, f.w);
    FactorBound(f.n * f.steps * f.w, f.h);
    WrapOnce(f);
    RoundUpExactIff(Product(f), MEGAPIXEL);
  }

  lemma ProductMono(a: int, b: int, c: int, d: int)
    requires 0 <= a <= c && 0 <= b <= d
    ensures 0 <= a * b <= c * d
  {
    MulMono(a, c, b);
    MulMono(b, d, c);
    MulMono(0, a, b);
  }

  lemma UnitsMonotone(f: Factors, g: Factors)
    requires Positive(f) && f.n <= g.n && f.steps <= g.steps && f.w <= g.w && f.h <= g.h
    requires Product(g) + 999_999 <= MAX_INT64
    ensures Units(f) <= Units(g)
  {
    ProductMono(f.n, f.steps, g.n, g.steps);
    ProductMono(f.n * f.steps, f.w, g.n * g.steps, g.w);
    ProductMono(f.n * f.steps * f.w, f.h, g.n * g.steps * g.w, g.h);
    UnitsExactIff(f);
    UnitsExactIff(g);
    CeilingMono(Units(f), Product(f), Units(g), Product(g), MEGAPIXEL);
  }

  // ----- the estimators -----

  function OrDefault(v: Option<int64>, default: int64): int64 {
    if v.Some? && v.value > 0 then v.value else default
  }

  function WithSize(n: int64, steps: int64, size: Option<Size>): Option<Factors> {
    if size.None? then None else Some(Factors(n, steps, size.value.w, size.value.h))
  }

  /** What a JSON request is metered by; None is a refused request. */
  function GenerationFactors(n: Option<int64>, steps: Option<int64>, size: string): Option<Factors> {
    WithSize(OrDefault(n, DEFAULT_N), OrDefault(steps, DEFAULT_STEPS), ParseWxH(Resolved(size)))
  }

  function FieldInt(text: Option<string>): Option<int64> {
    var field := Field(text);
    if field.None? then None else Atoi(field.value)
  }

  function FieldSize(text: Option<string>): string {
    var field := Field(text);
    if field.None? then DEFAULT_SIZE else Resolved(field.value)
  }

  /** What a form request is metered by. */
  function EditFactors(n: Option<string>, steps: Option<string>, size: Option<string>): Option<Factors> {
    WithSize(OrDefault(FieldInt(n), DEFAULT_N), OrDefault(FieldInt(steps), DEFAULT_STEPS), ParseWxH(FieldSize(size)))
  }

  function Estimate(f: Option<Factors>): Option<int64> {
    if f.None? then None else Some(Units(f.value))
  }

  /** What a caller gets from an estimator: a refusal exactly when the size does not parse, and the
      exact ceiling exactly when the rounded product fits. */
  ghost predicate Meters(units: Option<int64>, f: Option<Factors>, size: string) {
    && (units.None? <==> ParseWxH(size).None?)
    && (f.None? <==> ParseWxH(size).None?)
    && (f.Some? && units.Some? ==>
          && Positive(f.value)
          && (IsCeiling(units.value, Product(f.value), MEGAPIXEL) <==> Product(f.value) + 999_999 <= MAX_INT64))
  }

  lemma EstimateMeters(n: int64, steps: int64, size: string)
    requires n > 0 && steps > 0
    ensures var f := WithSize(n, steps, ParseWxH(size)); Meters(Estimate(f), f, size)
  {
    var f := WithSize(n, steps, ParseWxH(size));
    if f.Some? {
      UnitsExactIff(f.value);
    }
  }

  method EstimateGenerations(rN: Option<int64>, rSteps: Option<int64>, rSize: string) returns (units: Option<int64>)
    ensures units == Estimate(GenerationFactors(rN, rSteps, rSize))
    ensures Meters(units, GenerationFactors(rN, rSteps, rSize), Resolved(rSize))
  {
    EstimateMeters(OrDefault(rN, DEFAULT_N), OrDefault(rSteps, DEFAULT_STEPS), Resolved(rSize));
    var n, steps := DEFAULT_N, DEFAULT_STEPS;
    if rN.Some? && rN.value > 0 {
      n := rN.value;
    }
    if rSteps.Some? && rSteps.value > 0 {
      steps := rSteps.value;
    }
    var size := rSize;
    if size == "" || size == "auto" {
      size := "1024x1024";
      DefaultSizeIs();
    }
    var parsed := ParseWxH(size);
    if parsed.None? {
      return None;
    }
    var u := Meter(Factors(n, steps, parsed.value.w, parsed.value.h));
    return Some(u);
  }

  method EstimateEdits(fN: Option<string>, fSteps: Option<string>, fSize: Option<string>) returns (units: Option<int64>)
    ensures units == Estimate(EditFactors(fN, fSteps, fSize))
    ensures Meters(units, EditFactors(fN, fSteps, fSize), FieldSize(fSize))
  {
    EstimateMeters(OrDefault(FieldInt(fN), DEFAULT_N), OrDefault(FieldInt(fSteps), DEFAULT_STEPS), FieldSize(fSize));
    var n, steps, size := DEFAULT_N, DEFAULT_STEPS, "1024x1024";
    DefaultSizeIs();
    if fN.Some? {
      var v := Atoi(TrimSpace(Cut(fN.value, LIMIT)));
      if v.Some? && v.value > 0 {
        n := v.value;
      }
    }
    if fSteps.Some? {
      var v := Atoi(TrimSpace(Cut(fSteps.value, LIMIT)));
      if v.Some? && v.value > 0 {
        steps := v.value;
      }
    }
    if fSize.Some? {
      var raw := TrimSpace(Cut(fSize.value, LIMIT));
      if raw != "" && raw != "auto" {
        size := raw;
      }
    }
    var parsed := ParseWxH(size);
    if parsed.None? {
      return None;
    }
    var u := Meter(Factors(n, steps, parsed.value.w, parsed.value.h));
    return Some(u);
  }

  /** The last two lines of both estimators. */
  method Meter(f: Factors) returns (units: int64)
    ensures units == Units(f)
  {
    var pixels := Wrap64(f.n * f.steps);
    pixels := Wrap64(pixels * f.w);
    pixels := Wrap64(pixels * f.h);
    units := TruncDiv(Wrap64(pixels + 999_999), 1_000_000);
  }

  /** k is what a field counts as: its value if that is positive, and otherwise the default. */
  predicate CountsAs(v: Option<int64>, default: int64, k: int64) {
    if v.Some? && v.value > 0 then k == v.value else k == default
  }

  /** In the request's own values: n counts as 1 and steps as 30 when absent or not positive, a size
      WxH as its sides and an empty one or "auto" as 1024 by 1024, and the estimate is the ceiling
      of their product in megapixels whenever that fits. */
  lemma GenerationsMeterTheRequest(n: Option<int64>, steps: Option<int64>, k: int64, s: int64, w: int64, h: int64, size: string)
    requires CountsAs(n, 1, k) && CountsAs(steps, 30, s) && w > 0 && h > 0
    requires size == SizeText(w, h) || (MeansDefault(size) && w == h == 1024)
    requires k * s * w * h + 999_999 <= MAX_INT64
    ensures
      var units := Estimate(GenerationFactors(n, steps, size));
      units.Some? && IsCeiling(units.value, k * s * w * h, 1_000_000)
  {
    SizeIsRead(w, h, size);
    UnitsExactIff(Factors(k, s, w, h));
  }

  lemma SizeIsRead(w: int64, h: int64, size: string)
    requires w > 0 && h > 0 && (size == SizeText(w, h) || (MeansDefault(size) && w == h == 1024))
    ensures ParseWxH(Resolved(size)) == Some(Size(w, h))
  {
    SizeRoundTrip(w, h);
    if size == SizeText(w, h) && MeansDefault(size) {
      DefaultsAreTrimmed(size);
    }
  }

  /** The same of the form, for field texts within the reader's limit. */
  lemma EditsMeterTheRequest(n: Option<int64>, steps: Option<int64>, nText: Option<string>, stepsText: Option<string>,
                             k: int64, s: int64, w: int64, h: int64, size: string)
    requires Spells(nText, n) && Spells(stepsText, steps) && Within(nText, LIMIT) && Within(stepsText, LIMIT)
    requires CountsAs(n, 1, k) && CountsAs(steps, 30, s) && w > 0 && h > 0
    requires size == SizeText(w, h) || (MeansDefault(size) && w == h == 1024)
    requires Within(Some(size), LIMIT) && k * s * w * h + 999_999 <= MAX_INT64
    ensures
      var units := Estimate(EditFactors(nText, stepsText, Some(size)));
      units.Some? && IsCeiling(units.value, k * s * w * h, 1_000_000)
  {
    SizeIsTrimmed(w, h, size);
    TrimmedSizesAgree(n, steps, size, nText, stepsText);
    GenerationsMeterTheRequest(n, steps, k, s, w, h, size);
  }

  lemma SizeIsTrimmed(w: int64, h: int64, size: string)
    requires w > 0 && h > 0 && (size == SizeText(w, h) || MeansDefault(size))
    ensures TrimSpace(size) == size
  {
    if MeansDefault(size) {
      DefaultsAreTrimmed(size);
    } else {
      DigitsAreClean(Codecs.FormatInt(w), Codecs.FormatInt(h), size);
    }
  }

  // ----- agreement -----

  /** The form text spells the JSON value: both absent, or a decimal spelling of the number. */
  ghost predicate Spells(text: Option<string>, v: Option<int64>) {
    if v.None? then text.None? else text.Some? && Atoi(TrimSpace(text.value)) == v
  }

  lemma SpelledIsRead(text: Option<string>, v: Option<int64>)
    requires Spells(text, v) && Within(text, LIMIT)
    ensures FieldInt(text) == v
  {
    if text.Some? {
      FieldKeeps(text.value);
    }
  }

  /** The canonical spelling, in any blanks, is one, and within the limit it is read back. */
  lemma FormattedSpells(v: int64, lead: string, tail: string)
    requires Blank(lead) && Blank(tail)
    ensures
      var text := Some(lead + Codecs.FormatInt(v) + tail);
      Spells(text, Some(v)) && (Within(text, LIMIT) ==> FieldInt(text) == Some(v))
  {
    var text := Some(lead + Codecs.FormatInt(v) + tail);
    AtoiFormat(v);
    PaddedTrim(lead, Codecs.FormatInt(v), tail);
    if Within(text, LIMIT) {
      SpelledIsRead(text, Some(v));
    }
  }

  lemma Format1024()
    ensures Codecs.FormatInt(1024) == "1024"
  {
    assert Codecs.FormatNat(1) == "1";
    assert Codecs.FormatNat(10) == Codecs.FormatNat(1) + "0";
    assert Codecs.FormatNat(102) == Codecs.FormatNat(10) + "2";
    assert Codecs.FormatNat(1024) == Codecs.FormatNat(102) + "4";
  }

  lemma DefaultSizeIs()
    ensures DEFAULT_SIZE == "1024x1024"
  {
    Format1024();
  }

  /** A size whose blanks hide the default: the form reader strips them, the JSON one does not. */
  predicate HiddenDefault(size: string) { size != TrimSpace(size) && MeansDefault(TrimSpace(size)) }

  lemma DefaultsAreTrimmed(size: string)
    requires MeansDefault(size)
    ensures TrimSpace(size) == size && ParseWxH(size).None?
  {
    TrimmedIff(size);
    assert ToLower(size) == size;
    NoSeparatorNoSplit(size, 'x');
  }

  /** Reading a size with or without its blanks stripped differs only on a hidden default,
      which one reader refuses and the other resolves. */
  lemma SizeReadersAgreeIff(size: string)
    ensures !HiddenDefault(size) ==> ParseWxH(Resolved(size)) == ParseWxH(Resolved(TrimSpace(size)))
    ensures HiddenDefault(size) ==> ParseWxH(Resolved(size)).None? && ParseWxH(Resolved(TrimSpace(size))).Some?
  {
    var core := TrimSpace(size);
    if MeansDefault(size) {
      DefaultsAreTrimmed(size);
    } else {
      var lead, tail := TrimSpaceSplits(size);
      PaddedSize(lead, core, tail);
      if MeansDefault(core) {
        DefaultsAreTrimmed(core);
        SizeRoundTrip(1024, 1024);
      }
    }
  }

  /** The two estimators meter the same n, steps and size by the same factors, or both refuse,
      exactly when the size is not a hidden default. */
  ghost predicate AgreeAsTold(n: Option<int64>, steps: Option<int64>, size: string,
                              nText: Option<string>, stepsText: Option<string>) {
    var json, form := GenerationFactors(n, steps, size), EditFactors(nText, stepsText, Some(size));
    && (json == form <==> !HiddenDefault(size))
    && (Estimate(json) == Estimate(form) <==> !HiddenDefault(size))
  }

  /** They do so for every n, steps and size whose form texts the reader keeps whole. */
  lemma EstimatorsAgreeIff(n: Option<int64>, steps: Option<int64>, size: string,
                           nText: Option<string>, stepsText: Option<string>)
    requires Spells(nText, n) && Spells(stepsText, steps)
    requires Within(nText, LIMIT) && Within(stepsText, LIMIT) && Within(Some(size), LIMIT)
    ensures AgreeAsTold(n, steps, size, nText, stepsText)
  {
    SpelledIsRead(nText, n);
    SpelledIsRead(stepsText, steps);
    FieldKeeps(size);
    SizeReadersAgreeIff(size);
  }

  /** A trimmed size is never a hidden default, and an absent one is the empty JSON string. */
  lemma TrimmedSizesAgree(n: Option<int64>, steps: Option<int64>, size: string,
                          nText: Option<string>, stepsText: Option<string>)
    requires Spells(nText, n) && Spells(stepsText, steps) && TrimSpace(size) == size
    requires Within(nText, LIMIT) && Within(stepsText, LIMIT) && Within(Some(size), LIMIT)
    ensures GenerationFactors(n, steps, size) == EditFactors(nText, stepsText, Some(size))
    ensures size == "" ==> GenerationFactors(n, steps, size) == EditFactors(nText, stepsText, None)
  {
    EstimatorsAgreeIff(n, steps, size, nText, stepsText);
    SpelledIsRead(nText, n);
    SpelledIsRead(stepsText, steps);
  }

  // ----- the limit is exact -----

  /** Agreement for all texts of at most so many bytes. */
  ghost predicate AgreeUpTo(bound: nat) {
    forall n, steps, size, nText, stepsText ::
      && Spells(nText, n) && Spells(stepsText, steps)
      && Within(nText, bound) && Within(stepsText, bound) && Within(Some(size), bound)
      ==> AgreeAsTold(n, steps, size, nText, stepsText)
  }

  function Zeros(k: nat): string { seq(k, i => '0') }

  lemma {:induction false} ZerosAddNothing(k: nat, s: string)
    requires Codecs.AllDigits(s)
    ensures Codecs.AllDigits(Zeros(k) + s) && Codecs.DigitsValue(Zeros(k) + s) == Codecs.DigitsValue(s)
    decreases |s|, k
  {
    var t := Zeros(k) + s;
    if s != "" {
      assert t[..|t| - 1] == Zeros(k) + s[..|s| - 1];
      ZerosAddNothing(k, s[..|s| - 1]);
    } else if k > 0 {
      assert t[..|t| - 1] == Zeros(k - 1) + s;
      ZerosAddNothing(k - 1, s);
    } else {
      assert t == s;
    }
  }

  lemma SideOfDigits(s: string, w: int64)
    requires s != "" && Codecs.AllDigits(s) && Codecs.DigitsValue(s) == w > 0
    ensures Side(s) == Some(w)
  {
    Codecs.DigitsParse(s);
  }

  function LongSize(k: nat, w: int64, h: int64): string { Zeros(k) + SizeText(w, h) }

  lemma LongSizeParses(k: nat, w: int64, h: int64)
    requires w > 0 && h > 0
    ensures ParseWxH(LongSize(k, w, h)) == Some(Size(w, h))
  {
    var a, b := Zeros(k) + Codecs.FormatInt(w), Codecs.FormatInt(h);
    assert LongSize(k, w, h) == a + "x" + b;
    ZerosAddNothing(k, Codecs.FormatInt(w));
    SideOfDigits(a, w);
    SideOfDigits(b, h);
    SizeOfSides(a, b);
  }

  /** A text of digits, an x and digits has nothing to trim and is not a default. */
  lemma DigitsAreClean(a: string, b: string, s: string)
    requires a != "" && b != "" && Codecs.AllDigits(a) && Codecs.AllDigits(b) && s == a + "x" + b
    ensures TrimSpace(s) == s && !MeansDefault(s) && Ascii(s)
  {
    assert Codecs.IsDigit(a[0]) && Codecs.IsDigit(b[|b| - 1]);
    assert s[0] == a[0] && s[|s| - 1] == b[|b| - 1];
    CleanEndsTrim(s);
  }

  lemma LongSizeIsClean(k: nat, w: int64, h: int64)
    requires w > 0 && h > 0
    ensures var s := LongSize(k, w, h); TrimSpace(s) == s && !MeansDefault(s) && Ascii(s)
  {
    var a, b := Zeros(k) + Codecs.FormatInt(w), Codecs.FormatInt(h);
    ZerosAddNothing(k, Codecs.FormatInt(w));
    DigitsAreClean(a, b, LongSize(k, w, h)) by {
      assert LongSize(k, w, h) == a + "x" + b;
    }
  }

  lemma {:induction false} FormatLength(n: nat)
    requires n > 0
    ensures |Codecs.FormatNat(n)| <= n
  {
    if n >= 10 {
      FormatLength(n / 10);
    }
  }

  /** A trimmed size of k zeros and WxH0, one byte past the limit: JSON meters all of it, the form
      loses the last digit and meters WxH. */
  lemma CutSizeDiffers(k: nat, w: int64, h: int64, tall: int64)
    requires w > 0 && h > 0 && tall == 10 * h && |LongSize(k, w, tall)| == LIMIT + 1
    ensures
      var size := LongSize(k, w, tall);
      && Utf8Length(size) == LIMIT + 1 && TrimSpace(size) == size && !HiddenDefault(size)
      && GenerationFactors(None, None, size) == Some(Factors(1, 30, w, tall))
      && EditFactors(None, None, Some(size)) == Some(Factors(1, 30, w, h))
  {
    var size, kept := LongSize(k, w, tall), LongSize(k, w, h);
    LongSizeCut(k, w, h);
    CutFactors(size, kept, Size(w, tall), Size(w, h)) by {
      LongSizeParses(k, w, tall);
      LongSizeParses(k, w, h);
      LongSizeIsClean(k, w, tall);
      LongSizeIsClean(k, w, h);
    }
  }

  /** Two sizes, one cut to the other, are each metered as what they parse to. */
  lemma CutFactors(size: string, kept: string, full: Size, short: Size)
    requires Cut(size, LIMIT) == kept && TrimSpace(kept) == kept && TrimSpace(size) == size
    requires !MeansDefault(size) && !MeansDefault(kept)
    requires ParseWxH(size) == Some(full) && ParseWxH(kept) == Some(short)
    ensures TrimSpace(size) == size && !HiddenDefault(size)
    ensures GenerationFactors(None, None, size) == Some(Factors(1, 30, full.w, full.h))
    ensures EditFactors(None, None, Some(size)) == Some(Factors(1, 30, short.w, short.h))
  {
  }

  lemma LongSizeCut(k: nat, w: int64, h: int64)
    requires w > 0 && h > 0 && 10 * h <= MAX_INT64 && |LongSize(k, w, 10 * h)| == LIMIT + 1
    ensures
      var size := LongSize(k, w, 10 * h);
      Utf8Length(size) == LIMIT + 1 && Cut(size, LIMIT) == LongSize(k, w, h)
  {
    var size, kept := LongSize(k, w, 10 * h), LongSize(k, w, h);
    LongSizeIsClean(k, w, 10 * h);
    CutAscii(size, LIMIT);
    LongSizeDigit(k, w, h);
    assert size[..LIMIT] == kept;
  }

  lemma LongSizeDigit(k: nat, w: int64, h: int64)
    requires w > 0 && h > 0 && 10 * h <= MAX_INT64
    ensures LongSize(k, w, 10 * h) == LongSize(k, w, h) + "0"
  {
    var front, side := Zeros(k), Codecs.FormatInt(w) + "x";
    FormatTimesTen(h);
    assert LongSize(k, w, 10 * h) == front + (side + (Codecs.FormatInt(h) + "0"));
    Reassociate(front, side, Codecs.FormatInt(h), "0");
  }

  lemma FormatTimesTen(h: nat)
    requires h > 0
    ensures Codecs.FormatInt(10 * h) == Codecs.FormatInt(h) + "0"
  {
    assert (10 * h) / 10 == h && (10 * h) % 10 == 0;
  }

  lemma Reassociate(a: string, b: string, c: string, d: string)
    ensures a + (b + (c + d)) == (a + (b + c)) + d
  {
  }

  /** There is such a size, and it makes a difference in units. */
  lemma CutSizeExists() returns (k: nat)
    ensures |LongSize(k, 1000, 10_000)| == LIMIT + 1
  {
    FormatLength(1000);
    FormatLength(10_000);
    k := LIMIT + 1 - |SizeText(1000, 10_000)|;
  }

  lemma CutSizeUnits()
    ensures Units(Factors(1, 30, 1000, 10_000)) == 300 && Units(Factors(1, 30, 1000, 1000)) == 30
  {
    UnitsExactIff(Factors(1, 30, 1000, 10_000));
    UnitsExactIff(Factors(1, 30, 1000, 1000));
  }

  /** So the reader's limit is the exact bound up to which the estimators agree as told. */
  lemma LimitIsExact(bound: nat)
    ensures AgreeUpTo(bound) <==> bound <= 65_536
  {
    if bound <= LIMIT {
      forall n, steps, size, nText, stepsText |
        && Spells(nText, n) && Spells(stepsText, steps)
        && Within(nText, bound) && Within(stepsText, bound) && Within(Some(size), bound)
        ensures AgreeAsTold(n, steps, size, nText, stepsText)
      {
        EstimatorsAgreeIff(n, steps, size, nText, stepsText);
      }
    } else {
      var k := CutSizeExists();
      var size := LongSize(k, 1000, 10_000);
      CutSizeDiffers(k, 1000, 1000, 10_000);
      CutSizeUnits();
      assert !AgreeAsTold(None, None, size, None, None);
      assert Spells(None, None) && Within(None, bound) && Within(Some(size), bound);
    }
  }

  // ----- where the promises stop -----

  const BIG: int64 := 0x1_0000_0000

  /** A request that passes every check and is metered at zero: 2^64 pixels wrap to none. */
  lemma OverflowIsFree()
    ensures Estimate(GenerationFactors(Some(1), Some(1), SizeText(BIG, BIG))) == Some(0)
  {
    SizeRoundTrip(BIG, BIG);
    WrappedAway(Factors(1, 1, BIG, BIG), 1);
    assert ParseWxH("").None? && ParseWxH("auto").None? by {
      DefaultsAreTrimmed("");
      DefaultsAreTrimmed("auto");
    }
  }

  lemma WrappedAway(f: Factors, k: int)
    requires Product(f) == k * TWO_64
    ensures Units(f) == 0
  {
    WrapOnce(f);
    MultipleWrapsToNothing(Product(f), k);
  }

  lemma MultipleWrapsToNothing(p: int, k: int)
    requires p == k * TWO_64
    ensures RoundUp(Wrap64(p), MEGAPIXEL) == 0
  {
    WrapShift(0, k);
    WrapInRange(0);
  }

  /** The whole failing family, " auto" being its simplest member: a default size in blanks is
      refused in JSON, while a form meters it like 1024x1024. */
  lemma PaddedDefaultDiffers(lead: string, size: string, tail: string)
    requires Blank(lead) && Blank(tail) && lead + tail != "" && MeansDefault(size)
    requires Within(Some(lead + size + tail), LIMIT)
    ensures HiddenDefault(lead + size + tail)
    ensures GenerationFactors(None, None, lead + size + tail) == None
    ensures EditFactors(None, None, Some(lead + size + tail)) == Some(Factors(1, 30, 1024, 1024))
  {
    var padded := lead + size + tail;
    PaddedIsHidden(lead, size, tail, padded);
    HiddenDefaultDiffers(padded);
  }

  lemma PaddedIsHidden(lead: string, size: string, tail: string, padded: string)
    requires Blank(lead) && Blank(tail) && lead + tail != "" && MeansDefault(size) && padded == lead + size + tail
    ensures HiddenDefault(padded)
  {
    DefaultsAreTrimmed(size);
    PaddedTrim(lead, size, tail);
    assert |padded| > |size|;
  }

  lemma HiddenDefaultDiffers(size: string)
    requires HiddenDefault(size) && Within(Some(size), LIMIT)
    ensures GenerationFactors(None, None, size) == None
    ensures EditFactors(None, None, Some(size)) == Some(Factors(1, 30, 1024, 1024))
  {
    FieldKeeps(size);
    SizeReadersAgreeIff(size);
    SizeRoundTrip(1024, 1024);
  }
}
