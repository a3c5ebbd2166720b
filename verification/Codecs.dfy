/** Ticket-params codecs: hex addresses (section 8 of RFC 4648), decimal wei strings,
    big-endian integers, and the multipart boundary line (section 5.1.1 of RFC 2046). */
module Codecs {
  import opened Go

  // ----- hex -----

  function HexDigit(n: int): char
    requires 0 <= n < 16
  {
    if n < 10 then (n + '0' as int) as char else (n - 10 + 'a' as int) as char
  }

  function HexValue(c: char): (v: Option<int>)
    ensures v.Some? ==> 0 <= v.value < 16
  {
    if '0' <= c <= '9' then Some(c as int - '0' as int)
    else if 'a' <= c <= 'f' then Some(c as int - 'a' as int + 10)
    else if 'A' <= c <= 'F' then Some(c as int - 'A' as int + 10)
    else None
  }

  /** `hex.EncodeToString` */
  function HexEncode(b: Bytes): (s: string)
    ensures |s| == 2 * |b|
  {
    if b == [] then ""
    else [HexDigit(b[0] / 16), HexDigit(b[0] % 16)] + HexEncode(b[1..])
  }

  /** `hex.DecodeString`: either letter case; odd length or a foreign character is an error. */
  function HexDecode(s: string): (b: Option<Bytes>)
    ensures b.Some? ==> |s| == 2 * |b.value|
  {
    if s == "" then Some([])
    else if |s| == 1 then None
    else
      match (HexValue(s[0]), HexValue(s[1]), HexDecode(s[2..]))
      case (Some(hi), Some(lo), Some(rest)) => Some([16 * hi + lo] + rest)
      case _ => None
  }

  function LowerHexChar(c: char): char {
    if 'A' <= c <= 'F' then (c as int - 'A' as int + 'a' as int) as char else c
  }

  function LowerHex(s: string): string {
    seq(|s|, i requires 0 <= i < |s| => LowerHexChar(s[i]))
  }

  lemma {:induction false} HexDecodeEncode(b: Bytes)
    ensures HexDecode(HexEncode(b)) == Some(b)
  {
    if b != [] {
      var s := HexEncode(b);
      assert s[2..] == HexEncode(b[1..]);
      HexDecodeEncode(b[1..]);
      assert [b[0]] + b[1..] == b;
    }
  }

  lemma {:induction false} HexEncodeDecode(s: string)
    requires HexDecode(s).Some?
    ensures HexEncode(HexDecode(s).value) == LowerHex(s)
  {
    if s != "" {
      HexEncodeDecode(s[2..]);
      var b := HexDecode(s).value;
      assert b[1..] == HexDecode(s[2..]).value;
      HexDigitRoundTrip(s[0]);
      HexDigitRoundTrip(s[1]);
      LowerHexCons(s);
    }
  }

  lemma HexDigitRoundTrip(c: char)
    requires HexValue(c).Some?
    ensures HexDigit(HexValue(c).value) == LowerHexChar(c)
  {
  }

  lemma LowerHexCons(s: string)
    requires |s| >= 2
    ensures LowerHex(s) == [LowerHexChar(s[0]), LowerHexChar(s[1])] + LowerHex(s[2..])
  {
  }

  function BytesToHexString(b: Bytes): string {
    if b == [] then "0x" else "0x" + HexEncode(b)
  }

  datatype AddressError = NoPrefix | NotTwentyBytes | NotHex

  datatype AddressResult = Address(bytes: Bytes) | BadAddress(error: AddressError)

  function ParseHexAddress(value: string): AddressResult { ParseTrimmedAddress(TrimSpace(value)) }

  function ParseTrimmedAddress(trimmed: string): AddressResult {
    if !("0x" <= trimmed) && !("0X" <= trimmed) then BadAddress(NoPrefix)
    else
      var raw := trimmed[2..];
      if |raw| != 40 then BadAddress(NotTwentyBytes)
      else
        var b := HexDecode(raw);
        if b.Some? then Address(b.value) else BadAddress(NotHex)
  }

  /** Rendering then parsing gives the bytes back exactly for 20-byte addresses: every other
      length is refused, so the round trip holds if and only if the length is 20. */
  lemma {:induction false} AddressRoundTrip(b: Bytes)
    ensures ParseHexAddress(BytesToHexString(b)) == Address(b) <==> |b| == 20
    ensures |b| != 20 ==> ParseHexAddress(BytesToHexString(b)) == BadAddress(NotTwentyBytes)
  {
    assert ParseHexAddress(BytesToHexString(b)) == ParseTrimmedAddress("0x" + HexEncode(b)) by {
      HexTextIsTrimmed(b);
    }
    ParsePrefixed(HexEncode(b));
    HexDecodeEncode(b);
  }

  /** The 0x-form is read back as its digits, when there are forty of them. */
  lemma ParsePrefixed(raw: string)
    ensures |raw| != 40 ==> ParseTrimmedAddress("0x" + raw) == BadAddress(NotTwentyBytes)
    ensures |raw| == 40 && HexDecode(raw).Some? ==> ParseTrimmedAddress("0x" + raw) == Address(HexDecode(raw).value)
  {
    assert ("0x" + raw)[2..] == raw;
  }

  lemma HexTextIsTrimmed(b: Bytes)
    ensures BytesToHexString(b) == "0x" + HexEncode(b)
    ensures TrimSpace(BytesToHexString(b)) == BytesToHexString(b)
  {
    var hex, s := HexEncode(b), BytesToHexString(b);
    HexIsNotSpace(b);
    assert s == "0x" + hex;
    assert s[0] == '0' && s[|s| - 1] == if b == [] then 'x' else hex[|hex| - 1];
    CleanEndsTrim(s);
  }

  lemma {:induction false} HexIsNotSpace(b: Bytes)
    ensures forall i :: 0 <= i < 2 * |b| ==> !IsSpace(HexEncode(b)[i])
  {
    if b != [] {
      HexIsNotSpace(b[1..]);
      var s, rest := HexEncode(b), HexEncode(b[1..]);
      forall i | 0 <= i < 2 * |b| ensures !IsSpace(s[i]) {
        if i >= 2 { assert s[i] == rest[i - 2]; }
      }
    }
  }

  /** A hex digit of either case stands for its value in 0 to 15. */
  lemma HexDigitsMean(c: char)
    ensures HexValue(c) ==
            if '0' <= c <= '9' then Some(c as int - '0' as int)
            else if 'a' <= c <= 'f' then Some(c as int - 'a' as int + 10)
            else if 'A' <= c <= 'F' then Some(c as int - 'A' as int + 10)
            else None
  {
  }

  ghost predicate HexText(s: string) { forall i :: 0 <= i < |s| ==> HexValue(s[i]).Some? }

  /** Any even number of hex digits decodes, byte by byte. */
  lemma {:induction false} HexTextDecodes(s: string)
    requires HexText(s) && |s| % 2 == 0
    ensures HexDecode(s).Some? && |HexDecode(s).value| == |s| / 2
    ensures forall k :: 0 <= k < |s| / 2 ==>
              HexDecode(s).value[k] == 16 * HexValue(s[2 * k]).value + HexValue(s[2 * k + 1]).value
    decreases |s|
  {
    if s != "" {
      HexTextDecodes(s[2..]);
      var b, rest := HexDecode(s).value, HexDecode(s[2..]).value;
      assert b == [16 * HexValue(s[0]).value + HexValue(s[1]).value] + rest;
      forall k | 0 <= k < |s| / 2 ensures b[k] == 16 * HexValue(s[2 * k]).value + HexValue(s[2 * k + 1]).value {
        if k > 0 {
          assert s[2..][2 * (k - 1)] == s[2 * k] && s[2..][2 * (k - 1) + 1] == s[2 * k + 1];
        }
      }
    }
  }

  /** Every address of forty hex digits, upper case, lower case or checksummed, behind 0x or 0X and
      in any blanks, is accepted as the bytes it spells. */
  lemma EveryAddressIsAccepted(lead: string, text: string, raw: string, tail: string)
    requires Blank(lead) && Blank(tail) && (text == "0x" + raw || text == "0X" + raw) && HexText(raw) && |raw| == 40
    ensures HexDecode(raw).Some? && ParseHexAddress(lead + text + tail) == Address(HexDecode(raw).value)
  {
    HexTextDecodes(raw);
    AddressTextIsClean(text, raw);
    TrimSpaceIs(lead, text, tail);
    ParseEitherPrefix(text, raw);
  }

  lemma AddressTextIsClean(text: string, raw: string)
    requires (text == "0x" + raw || text == "0X" + raw) && HexText(raw) && |raw| == 40
    ensures text != "" && !IsSpace(text[0]) && !IsSpace(text[|text| - 1])
  {
    assert text[0] == '0' && text[|text| - 1] == raw[39];
    assert HexValue(raw[39]).Some?;
  }

  lemma ParseEitherPrefix(text: string, raw: string)
    requires (text == "0x" + raw || text == "0X" + raw) && |raw| == 40 && HexDecode(raw).Some?
    ensures ParseTrimmedAddress(text) == Address(HexDecode(raw).value)
  {
    assert text[2..] == raw;
    assert "0x" <= text || "0X" <= text;
  }

  /** Why an address text is refused: no prefix, not forty digits, or something that is no digit. */
  lemma RefusedAddresses(value: string)
    ensures
      var t, r := TrimSpace(value), ParseHexAddress(value);
      && (r == BadAddress(NoPrefix) <==> !("0x" <= t) && !("0X" <= t))
      && (r == BadAddress(NotTwentyBytes) <==> ("0x" <= t || "0X" <= t) && |t| != 42)
      && (r == BadAddress(NotHex) <==> ("0x" <= t || "0X" <= t) && |t| == 42 && !HexText(t[2..]))
  {
    var t := TrimSpace(value);
    if ("0x" <= t || "0X" <= t) && |t| == 42 {
      DecodesIff(t[2..]);
    }
  }

  lemma {:induction false} DecodesIff(s: string)
    requires |s| % 2 == 0
    ensures HexDecode(s).Some? <==> HexText(s)
    decreases |s|
  {
    if s != "" {
      DecodesIff(s[2..]);
      assert forall i :: 2 <= i < |s| ==> s[i] == s[2..][i - 2];
      assert HexText(s) <==> HexValue(s[0]).Some? && HexValue(s[1]).Some? && HexText(s[2..]);
    }
  }

  /** An accepted address text is the 0x-form of its bytes, up to letter case and outer space. */
  lemma AcceptedAddressText(value: string)
    requires ParseHexAddress(value).Address?
    ensures BytesToHexString(ParseHexAddress(value).bytes) == "0x" + LowerHex(TrimSpace(value)[2..])
    ensures |ParseHexAddress(value).bytes| == 20
  {
    HexEncodeDecode(TrimSpace(value)[2..]);
  }

  // ----- decimal -----

  predicate IsDigit(c: char) { '0' <= c <= '9' }

  predicate AllDigits(s: string) { forall i :: 0 <= i < |s| ==> IsDigit(s[i]) }

  function DigitsValue(s: string): nat
    requires AllDigits(s)
  {
    if s == "" then 0 else 10 * DigitsValue(s[..|s| - 1]) + (s[|s| - 1] as int - '0' as int)
  }

  /** `big.Int.SetString(s, 10)`: an optional sign, then at least one decimal digit. */
  function ParseDecimal(s: string): Option<int> {
    var body := if s != "" && (s[0] == '+' || s[0] == '-') then s[1..] else s;
    if body == "" || !AllDigits(body) then None
    else
      var magnitude: int := DigitsValue(body);
      Some(if s[0] == '-' then -magnitude else magnitude)
  }

  /** `big.Int.String` and `%d` of a non-negative integer. */
  function FormatNat(n: nat): (s: string)
    ensures s != "" && AllDigits(s) && DigitsValue(s) == n
    ensures s[0] == '0' ==> s == "0"
    decreases n
  {
    if n < 10 then [('0' as int + n) as char]
    else
      var s := FormatNat(n / 10) + [('0' as int + n % 10) as char];
      assert s[..|s| - 1] == FormatNat(n / 10);
      s
  }

  function FormatInt(n: int): string {
    if n < 0 then "-" + FormatNat(-n) else FormatNat(n)
  }

  /** What a decimal text is: digits, with at most one sign before them. */
  lemma DecimalMeans(s: string)
    requires s != "" && AllDigits(s)
    ensures ParseDecimal(s) == ParseDecimal("+" + s) == Some(DigitsValue(s)) && ParseDecimal("-" + s) == Some(-(DigitsValue(s) as int))
  {
    assert IsDigit(s[0]);
    assert ("+" + s)[1..] == s && ("-" + s)[1..] == s;
  }

  lemma OnlyDecimalsParse(s: string)
    requires ParseDecimal(s).Some?
    ensures s != "" && exists d :: d != "" && AllDigits(d) && (s == d || s == "+" + d || s == "-" + d)
  {
    var d := if s[0] == '+' || s[0] == '-' then s[1..] else s;
    assert s == d || s == [s[0]] + d;
  }

  lemma DigitsParse(s: string)
    requires s != "" && AllDigits(s)
    ensures ParseDecimal(s) == Some(DigitsValue(s)) && TrimSpace(s) == s
  {
    assert IsDigit(s[0]) && IsDigit(s[|s| - 1]);
    CleanEndsTrim(s);
  }

  lemma FormatIsTrimmed(n: int)
    ensures TrimSpace(FormatInt(n)) == FormatInt(n)
  {
    var s := FormatInt(n);
    var digits := FormatNat(if n < 0 then -n else n);
    assert IsDigit(digits[0]) && IsDigit(digits[|digits| - 1]);
    assert s[|s| - 1] == digits[|digits| - 1];
    TrimSpaceIs("", s, "");
    assert "" + s + "" == s;
  }

  lemma ParseFormatInt(n: int)
    ensures ParseDecimal(FormatInt(n)) == Some(n)
  {
    if n < 0 {
      assert FormatInt(n)[1..] == FormatNat(-n);
    }
  }

  /** No sign and no leading zero: the only spelling `String` ever produces. */
  predicate Canonical(s: string) {
    s != "" && AllDigits(s) && (s[0] == '0' ==> s == "0")
  }

  lemma {:induction false} DigitsValuePositive(s: string)
    requires s != "" && AllDigits(s) && s[0] != '0'
    ensures DigitsValue(s) >= 1
  {
    if |s| > 1 {
      DigitsValuePositive(s[..|s| - 1]);
    }
  }

  lemma {:induction false} FormatParse(s: string)
    requires Canonical(s)
    ensures FormatNat(DigitsValue(s)) == s
    decreases |s|
  {
    var init := s[..|s| - 1];
    var last := s[|s| - 1];
    if |s| == 1 {
      assert DigitsValue(init) == 0;
      assert s == [last];
    } else {
      DigitsValuePositive(init);
      FormatParse(init);
      var n := DigitsValue(s);
      assert n / 10 == DigitsValue(init) && n % 10 == last as int - '0' as int;
      assert s == init + [last];
    }
  }

  // ----- big-endian integers -----

  /** `big.Int.Bytes`: big-endian with no leading zero byte; zero is empty. */
  function ToBigEndian(n: nat): (b: Bytes)
    ensures FromBigEndian(b) == n
    ensures b != [] ==> b[0] != 0
    ensures b == [] <==> n == 0
  {
    if n == 0 then []
    else
      var b := ToBigEndian(n / 256) + [n % 256];
      assert b[..|b| - 1] == ToBigEndian(n / 256);
      b
  }

  /** `big.Int.SetBytes` */
  function FromBigEndian(b: Bytes): nat {
    if b == [] then 0 else 256 * FromBigEndian(b[..|b| - 1]) + b[|b| - 1]
  }

  function BytesToDecimalString(b: Bytes): string {
    if b == [] then "0" else FormatInt(FromBigEndian(b))
  }

  /** A face value written in decimal, sent to the daemon as big-endian bytes and rendered
      back, is the same text if and only if the text was canonical. */
  lemma FaceValueRoundTrip(text: string)
    requires ParseDecimal(TrimSpace(text)).Some? && ParseDecimal(TrimSpace(text)).value > 0
    ensures BytesToDecimalString(ToBigEndian(ParseDecimal(TrimSpace(text)).value)) == TrimSpace(text)
            <==> Canonical(TrimSpace(text))
  {
    var t := TrimSpace(text);
    var n := ParseDecimal(t).value;
    assert ToBigEndian(n) != [];
    if Canonical(t) {
      FormatParse(t);
    }
  }

  // ----- price strings -----

  datatype PriceInfo = PriceInfo(pricePerUnit: int64, pixelsPerUnit: int64)

  /** The daemon's price as the decimal string compared against worker.yaml. */
  function PriceInfoToWeiString(p: Option<PriceInfo>): string {
    match p
    case None => "0"
    case Some(info) =>
      if info.pixelsPerUnit <= 0 then FormatInt(info.pricePerUnit)
      else FormatInt(TruncDiv(info.pricePerUnit, info.pixelsPerUnit))
  }

  /** The string spells the price per unit, over the pixel count where that is positive, cut
      toward zero: the quotient and the price differ by less than one pixel count, on the side of
      zero. */
  lemma DaemonPriceMeans(info: PriceInfo)
    ensures
      var v := ParseDecimal(PriceInfoToWeiString(Some(info)));
      && v.Some?
      && (info.pixelsPerUnit <= 0 ==> v.value == info.pricePerUnit)
      && (info.pixelsPerUnit > 0 && info.pricePerUnit >= 0 ==>
            v.value * info.pixelsPerUnit <= info.pricePerUnit < (v.value + 1) * info.pixelsPerUnit)
      && (info.pixelsPerUnit > 0 && info.pricePerUnit < 0 ==>
            (v.value - 1) * info.pixelsPerUnit < info.pricePerUnit <= v.value * info.pixelsPerUnit)
    ensures ParseDecimal(PriceInfoToWeiString(None)) == Some(0)
  {
    ParseFormatInt(0);
    var p, d := info.pricePerUnit, info.pixelsPerUnit;
    if d <= 0 {
      ParseFormatInt(p);
    } else {
      ParseFormatInt(TruncDiv(p, d));
      TruncDivMeans(p, d);
    }
  }

  lemma TruncDivMeans(p: int, d: int)
    requires d > 0
    ensures p >= 0 ==> TruncDiv(p, d) * d <= p < (TruncDiv(p, d) + 1) * d
    ensures p < 0 ==> (TruncDiv(p, d) - 1) * d < p <= TruncDiv(p, d) * d
  {
    var a := if p >= 0 then p else -p;
    assert a == a / d * d + a % d;
  }

  /** Every price string of the daemon is the canonical spelling of an int64. */
  lemma DaemonPriceIsCanonicalInt64(p: Option<PriceInfo>)
    ensures exists n: int64 :: PriceInfoToWeiString(p) == FormatInt(n)
  {
    match p
    case None =>
      assert PriceInfoToWeiString(p) == FormatInt(0);
    case Some(info) =>
      if info.pixelsPerUnit <= 0 {
        assert PriceInfoToWeiString(p) == FormatInt(info.pricePerUnit);
      } else {
        var q := TruncDiv(info.pricePerUnit, info.pixelsPerUnit);
        TruncDivShrinks(info.pricePerUnit, info.pixelsPerUnit);
        assert PriceInfoToWeiString(p) == FormatInt(q);
      }
  }

  lemma TruncDivShrinks(a: int, b: int)
    requires b > 0
    ensures a >= 0 ==> 0 <= TruncDiv(a, b) <= a
    ensures a < 0 ==> a <= TruncDiv(a, b) <= 0
  {
    DivShrinks(if a >= 0 then a else -a, b);
  }

  lemma DivShrinks(x: nat, b: int)
    requires b > 0
    ensures 0 <= x / b <= x
  {
    QuotientBound(x, b, x / b, x % b);
  }

  lemma QuotientBound(x: nat, b: int, q: int, r: int)
    requires b > 0 && x == b * q + r && 0 <= r < b
    ensures 0 <= q <= x
  {
    if q >= 0 {
      assert (b - 1) * q >= 0;
    }
  }

  // ----- multipart boundary -----

  const CR: byte := 13
  const DASH: byte := 45
  const WINDOW: int := 1024

  datatype BoundaryResult = Boundary(value: Bytes) | TooShort | NoTerminator | NoDashes | Empty

  function IndexByte(b: Bytes, c: byte): (i: Option<int>)
    ensures i.Some? ==> 0 <= i.value < |b| && b[i.value] == c
    ensures i.Some? ==> forall k :: 0 <= k < i.value ==> b[k] != c
    ensures i.None? ==> c !in b
  {
    if b == [] then None
    else if b[0] == c then Some(0)
    else
      match IndexByte(b[1..], c)
      case None => None
      case Some(i) => Some(i + 1)
  }

  function TrimCR(b: Bytes): (t: Bytes)
    ensures t <= b
    ensures t != [] ==> t[|t| - 1] != CR
    ensures forall k :: |t| <= k < |b| ==> b[k] == CR
  {
    if b != [] && b[|b| - 1] == CR then TrimCR(b[..|b| - 1]) else b
  }

  /** The part of a body in which the first line must end. */
  function Window(body: Bytes): Bytes {
    if |body| > WINDOW then body[..WINDOW] else body
  }

  function Repeat(b: byte, n: nat): Bytes { seq(n, i => b) }

  /** The body opens, within the window, with a delimiter line for b: two hyphens, b, any number
      of carriage returns, a line feed. */
  ghost predicate Delimits(body: Bytes, b: Bytes, crs: nat) {
    && LF !in b && (b != [] ==> b[|b| - 1] != CR)
    && [DASH, DASH] + b + Repeat(CR, crs) + [LF] <= Window(body)
  }

  /** Each outcome with its exact condition: too short, no line end in the window, and otherwise
      the one boundary that the first line delimits, an error if that is empty or if the line
      delimits none. */
  method BoundaryFromBody(body: Bytes) returns (r: BoundaryResult)
    ensures r == BoundaryOf(body)
    ensures r == TooShort <==> |body| < 3
    ensures r == NoTerminator <==> |body| >= 3 && LF !in Window(body)
    ensures forall b, crs :: Delimits(body, b, crs) ==> r == if b == [] then Empty else Boundary(b)
    ensures r == NoDashes <==> |body| >= 3 && LF in Window(body) && forall b, crs :: !Delimits(body, b, crs)
    ensures r == Empty ==> exists crs :: Delimits(body, [], crs)
    ensures r.Boundary? ==> r.value != [] && exists crs :: Delimits(body, r.value, crs)
  {
    BoundaryMeaning(body);
    if |body| < 3 {
      return TooShort;
    }
    var window := body;
    if |window| > WINDOW {
      window := window[..WINDOW];
    }
    var idx := IndexByte(window, LF);
    if idx.None? {
      return NoTerminator;
    }
    var first := window[..idx.value];
    first := TrimCR(first);
    if !([DASH, DASH] <= first) {
      return NoDashes;
    }
    var b := first[2..];
    if b == [] {
      return Empty;
    }
    return Boundary(b);
  }

  function BoundaryOf(body: Bytes): BoundaryResult {
    if |body| < 3 then TooShort
    else
      match IndexByte(Window(body), LF)
      case None => NoTerminator
      case Some(i) =>
        var first := TrimCR(Window(body)[..i]);
        if !([DASH, DASH] <= first) then NoDashes
        else if first[2..] == [] then Empty
        else Boundary(first[2..])
  }

  lemma {:induction false} TrimCRDrops(b: Bytes, crs: nat)
    requires b != [] ==> b[|b| - 1] != CR
    ensures TrimCR(b + Repeat(CR, crs)) == b
    decreases crs
  {
    if crs == 0 {
      assert b + Repeat(CR, crs) == b;
    } else {
      var s := b + Repeat(CR, crs);
      assert s[..|s| - 1] == b + Repeat(CR, crs - 1);
      TrimCRDrops(b, crs - 1);
    }
  }

  lemma TrimCRSplits(s: Bytes)
    ensures s == TrimCR(s) + Repeat(CR, |s| - |TrimCR(s)|)
  {
    var t := TrimCR(s);
    assert forall k :: |t| <= k < |s| ==> s[k] == Repeat(CR, |s| - |t|)[k - |t|];
  }

  /** The first LF of a window that opens with an LF-free line stands right behind it. */
  lemma FirstLF(window: Bytes, line: Bytes)
    requires LF !in line && line + [LF] <= window
    ensures IndexByte(window, LF) == Some(|line|) && window[..|line|] == line
  {
    assert window[|line|] == LF;
    assert forall k :: 0 <= k < |line| ==> window[k] == line[k];
  }

  lemma DelimitedIsFound(body: Bytes, b: Bytes, crs: nat)
    requires Delimits(body, b, crs)
    ensures BoundaryOf(body) == if b == [] then Empty else Boundary(b)
  {
    var dashed := [DASH, DASH] + b;
    var line := dashed + Repeat(CR, crs);
    assert dashed[|dashed| - 1] == if b == [] then DASH else b[|b| - 1];
    FirstLF(Window(body), line);
    TrimCRDrops(dashed, crs);
    assert dashed[2..] == b;
  }

  /** A first line that is two hyphens and b, but for carriage returns, delimits b. */
  lemma LineDelimits(body: Bytes, line: Bytes, b: Bytes)
    requires line + [LF] <= Window(body) && LF !in line && TrimCR(line) == [DASH, DASH] + b
    ensures exists crs :: Delimits(body, b, crs)
  {
    var dashed := [DASH, DASH] + b;
    var crs := |line| - |dashed|;
    assert dashed + Repeat(CR, crs) == line by {
      TrimCRSplits(line);
    }
    assert LF !in b by {
      assert forall k :: 0 <= k < |b| ==> b[k] == dashed[k + 2] == line[k + 2];
    }
    assert b != [] ==> b[|b| - 1] == dashed[|dashed| - 1];
    assert Delimits(body, b, crs);
  }

  lemma FoundIsDelimited(body: Bytes)
    requires BoundaryOf(body) == Empty || BoundaryOf(body).Boundary?
    ensures var b := if BoundaryOf(body) == Empty then [] else BoundaryOf(body).value;
            exists crs :: Delimits(body, b, crs)
  {
    var window := Window(body);
    var i := IndexByte(window, LF).value;
    var line := window[..i];
    var b := TrimCR(line)[2..];
    assert TrimCR(line) == [DASH, DASH] + b;
    assert line + [LF] == window[..i + 1];
    LineDelimits(body, line, b);
  }

  lemma BoundaryMeaning(body: Bytes)
    ensures BoundaryOf(body) == TooShort <==> |body| < 3
    ensures BoundaryOf(body) == NoTerminator <==> |body| >= 3 && LF !in Window(body)
    ensures forall b, crs :: Delimits(body, b, crs) ==> BoundaryOf(body) == if b == [] then Empty else Boundary(b)
    ensures BoundaryOf(body) == NoDashes <==> |body| >= 3 && LF in Window(body) && forall b, crs :: !Delimits(body, b, crs)
    ensures BoundaryOf(body) == Empty ==> exists crs :: Delimits(body, [], crs)
    ensures BoundaryOf(body).Boundary? ==>
              BoundaryOf(body).value != [] && exists crs :: Delimits(body, BoundaryOf(body).value, crs)
  {
    forall b, crs | Delimits(body, b, crs) ensures BoundaryOf(body) == if b == [] then Empty else Boundary(b) {
      DelimitedIsFound(body, b, crs);
    }
    if BoundaryOf(body) == Empty || BoundaryOf(body).Boundary? {
      FoundIsDelimited(body);
    }
  }

  /** The first line of a body, without its line feed, decides the result. */
  lemma BoundaryOfLine(line: Bytes, rest: Bytes)
    requires LF !in line && [DASH, DASH] <= line
    ensures |line| >= WINDOW ==> BoundaryOf(line + [LF] + rest) == NoTerminator
    ensures |line| < WINDOW ==>
              var first := TrimCR(line);
              BoundaryOf(line + [LF] + rest) == if |first| > 2 then Boundary(first[2..]) else Empty
  {
    var body := line + [LF] + rest;
    var window := if |body| > WINDOW then body[..WINDOW] else body;
    if |line| >= WINDOW {
      assert forall k :: 0 <= k < |window| ==> window[k] == line[k];
    } else {
      assert window[|line|] == LF;
      assert window[..|line|] == line;
      assert forall k :: 0 <= k < |line| ==> window[k] == line[k];
      assert IndexByte(window, LF) == Some(|line|);
      assert line[1] != CR;
      assert |TrimCR(line)| >= 2;
    }
  }

  lemma {:induction false} TrimCRPast(b: Bytes)
    ensures TrimCR(b + [CR]) == TrimCR(b)
  {
    assert (b + [CR])[..|b|] == b;
  }

  /** Section 5.1.1 of RFC 2046: the delimiter line is two hyphens, the boundary and a line
      break. For a boundary without LF, whatever follows the line, the code recovers it if and
      only if the boundary is non-empty, does not itself end in CR, and its LF lies within the
      first 1024 bytes. */
  lemma BoundaryRecovered(boundary: Bytes, crlf: bool, rest: Bytes)
    requires LF !in boundary
    ensures
      var eol := if crlf then [CR, LF] else [LF];
      BoundaryOf([DASH, DASH] + boundary + eol + rest) == Boundary(boundary)
      <==> boundary != [] && boundary[|boundary| - 1] != CR && 2 + |boundary| + |eol| <= 1024
  {
    var dashed := [DASH, DASH] + boundary;
    if crlf {
      assert dashed + [CR, LF] + rest == (dashed + [CR]) + [LF] + rest;
      BoundaryOfLine(dashed + [CR], rest);
      TrimCRPast(dashed);
    } else {
      BoundaryOfLine(dashed, rest);
    }
    TrimOpened(boundary);
  }

  lemma TrimOpened(boundary: Bytes)
    ensures
      var first := TrimCR([DASH, DASH] + boundary);
      |first| >= 2 && (first[2..] == boundary <==> boundary == [] || boundary[|boundary| - 1] != CR)
  {
    var dashed := [DASH, DASH] + boundary;
    var first := TrimCR(dashed);
    assert dashed[1] != CR;
    assert dashed[2..] == boundary;
    if boundary != [] {
      assert dashed[|dashed| - 1] == boundary[|boundary| - 1];
      if first[2..] == boundary {
        assert |first| == |dashed|;
      }
    }
  }
}
