/** The few pieces of Go the models share: optional values, bytes, 64-bit integers with
    wrap-around, truncating division, and `strings.TrimSpace`. */
module Go {

  datatype Option<+T> = None | Some(value: T)

  type byte = b: int | 0 <= b < 256
  type Bytes = seq<byte>

  const LF: byte := 10

  const MAX_INT64: int := 0x7FFF_FFFF_FFFF_FFFF
  const MIN_INT64: int := -0x8000_0000_0000_0000
  const TWO_64: int := 0x1_0000_0000_0000_0000

  type int64 = x: int | MIN_INT64 <= x <= MAX_INT64

  /** The int64 a mathematical integer becomes after Go's silent two's-complement wrap. */
  function Wrap64(x: int): int64 {
    (x - MIN_INT64) % TWO_64 + MIN_INT64
  }

  /** Go's `/` on integers truncates toward zero. */
  function TruncDiv(a: int, b: int): int
    requires b > 0
  {
    if a >= 0 then a / b else -(-a / b)
  }

  /** `string(b)` for a byte slice: one character per byte. */
  function StringOf(b: Bytes): (s: string)
    ensures |s| == |b|
  {
    seq(|b|, i requires 0 <= i < |b| => b[i] as char)
  }

  lemma StringOfInjective(a: Bytes, b: Bytes)
    requires StringOf(a) == StringOf(b)
    ensures a == b
  {
    assert |a| == |b|;
    forall i | 0 <= i < |a| ensures a[i] == b[i] {
      assert StringOf(a)[i] == StringOf(b)[i];
    }
  }

  predicate IsAsciiSpace(c: char) {
    c == ' ' || c == '\t' || c == '\n' || c == '\r' || c == 11 as char || c == 12 as char
  }

  /** `unicode.IsSpace`: the ASCII blanks and the rest of Unicode's White_Space. */
  predicate IsSpace(c: char) {
    || IsAsciiSpace(c)
    || c == '\U{0085}' || c == '\U{00A0}' || c == '\U{1680}' || '\U{2000}' <= c <= '\U{200A}'
    || c == '\U{2028}' || c == '\U{2029}' || c == '\U{202F}' || c == '\U{205F}' || c == '\U{3000}'
  }

  /** Unicode's White_Space property, by code point. */
  lemma WhiteSpaceIs(c: char)
    ensures
      var v := c as int;
      IsSpace(c) <==> 9 <= v <= 13 || 0x2000 <= v <= 0x200A
                      || v in {32, 0x85, 0xA0, 0x1680, 0x2028, 0x2029, 0x202F, 0x205F, 0x3000}
  {
  }

  function TrimLeft(s: string): (t: string)
    ensures |t| <= |s| && t == s[|s| - |t|..]
    ensures t != [] ==> !IsSpace(t[0])
    ensures forall i :: 0 <= i < |s| - |t| ==> IsSpace(s[i])
  {
    if s != [] && IsSpace(s[0]) then TrimLeft(s[1..]) else s
  }

  function TrimRight(s: string): (t: string)
    ensures |t| <= |s| && t == s[..|t|]
    ensures t != [] ==> !IsSpace(t[|t| - 1])
    ensures forall i :: |t| <= i < |s| ==> IsSpace(s[i])
  {
    if s != [] && IsSpace(s[|s| - 1]) then TrimRight(s[..|s| - 1]) else s
  }

  /** `strings.TrimSpace` */
  function TrimSpace(s: string): string {
    TrimRight(TrimLeft(s))
  }

  /** A string is its own trim exactly when neither end is white space. */
  lemma TrimmedIff(s: string)
    ensures TrimSpace(s) == s <==> (s == [] || (!IsSpace(s[0]) && !IsSpace(s[|s| - 1])))
  {
  }

  lemma CleanEndsTrim(s: string)
    requires s != [] && !IsSpace(s[0]) && !IsSpace(s[|s| - 1])
    ensures TrimSpace(s) == s
  {
  }

  ghost predicate Blank(s: string) {
    forall i :: 0 <= i < |s| ==> IsSpace(s[i])
  }

  lemma {:induction false} TrimLeftDrops(lead: string, rest: string)
    requires Blank(lead) && (rest != [] ==> !IsSpace(rest[0]))
    ensures TrimLeft(lead + rest) == rest
    decreases |lead|
  {
    if lead == [] {
      assert lead + rest == rest;
    } else {
      assert (lead + rest)[1..] == lead[1..] + rest;
      TrimLeftDrops(lead[1..], rest);
    }
  }

  lemma {:induction false} TrimRightDrops(rest: string, tail: string)
    requires Blank(tail) && (rest != [] ==> !IsSpace(rest[|rest| - 1]))
    ensures TrimRight(rest + tail) == rest
    decreases |tail|
  {
    if tail == [] {
      assert rest + tail == rest;
    } else {
      var n := |tail| - 1;
      assert (rest + tail)[..|rest| + n] == rest + tail[..n];
      TrimRightDrops(rest, tail[..n]);
    }
  }

  /** A trim is the one substring with clean ends that only blanks surround. */
  lemma TrimSpaceIs(lead: string, core: string, tail: string)
    requires Blank(lead) && Blank(tail)
    requires core != [] ==> !IsSpace(core[0]) && !IsSpace(core[|core| - 1])
    ensures TrimSpace(lead + core + tail) == core
  {
    if core == [] {
      TrimLeftDrops(lead + core + tail, []);
      assert lead + core + tail + [] == lead + core + tail;
    } else {
      TrimLeftDrops(lead, core + tail);
      assert lead + core + tail == lead + (core + tail);
      TrimRightDrops(core, tail);
    }
  }

  lemma {:induction false} TrimLeftSplits(s: string) returns (lead: string)
    ensures Blank(lead) && s == lead + TrimLeft(s)
  {
    lead := s[..|s| - |TrimLeft(s)|];
  }

  lemma {:induction false} TrimRightSplits(s: string) returns (tail: string)
    ensures Blank(tail) && s == TrimRight(s) + tail
  {
    tail := s[|TrimRight(s)|..];
  }

  lemma {:induction false} TrimSpaceSplits(s: string) returns (lead: string, tail: string)
    ensures Blank(lead) && Blank(tail) && s == lead + TrimSpace(s) + tail
    ensures TrimSpace(s) != [] ==> !IsSpace(TrimSpace(s)[0]) && !IsSpace(TrimSpace(s)[|TrimSpace(s)| - 1])
  {
    var t := TrimLeft(s);
    lead := TrimLeftSplits(s);
    tail := TrimRightSplits(t);
    Associate(lead, TrimRight(t), tail);
    if TrimRight(t) != [] {
      assert TrimRight(t)[0] == t[0];
    }
  }

  lemma Associate(a: string, b: string, c: string)
    ensures a + b + c == a + (b + c)
  {
  }
}
