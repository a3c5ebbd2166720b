/** The multipart field reader as the estimators see it: the first 64 KiB of a field, then
    trimmed. Texts are code points; the limit counts the bytes of their UTF-8 encoding. */
module Form {
  import opened Go

  const LIMIT: nat := 0x1_0000

  function RuneLength(c: char): (n: nat)
    ensures 1 <= n <= 4
  {
    if c as int < 0x80 then 1 else if c as int < 0x800 then 2 else if c as int < 0x1_0000 then 3 else 4
  }

  /** UTF-8 holds 7 bits of a code point in one byte, 11 in two, 16 in three and 21 in four; each
      code point takes the least that holds it. */
  lemma RuneLengthIsLeast(c: char)
    ensures
      var n, v := RuneLength(c), c as int;
      && (n == 1 <==> v < 128) && (n <= 2 <==> v < 2_048) && (n <= 3 <==> v < 65_536) && v < 2_097_152
  {
  }

  function Utf8Length(s: string): (n: nat)
    ensures n >= |s|
  {
    if s == "" then 0 else RuneLength(s[0]) + Utf8Length(s[1..])
  }

  const INVALID: char := '\U{FFFD}'

  /** The first n bytes of a text. The bytes of a code point cut in two are no text any more; each
      stands as an invalid one, which is neither blank nor digit nor letter. */
  function Cut(s: string, n: nat): string {
    if s == "" || n == 0 then ""
    else if RuneLength(s[0]) <= n then [s[0]] + Cut(s[1..], n - RuneLength(s[0]))
    else seq(n, i => INVALID)
  }

  /** A text within the limit is kept whole. */
  lemma {:induction false} CutKeeps(s: string, n: nat)
    requires Utf8Length(s) <= n
    ensures Cut(s, n) == s
    decreases |s|
  {
    if s != "" {
      CutKeeps(s[1..], n - RuneLength(s[0]));
      assert [s[0]] + s[1..] == s;
    }
  }

  predicate Ascii(s: string) { forall i :: 0 <= i < |s| ==> s[i] as int < 0x80 }

  lemma {:induction false} CutAscii(s: string, n: nat)
    requires Ascii(s)
    ensures Utf8Length(s) == |s|
    ensures n <= |s| ==> Cut(s, n) == s[..n]
    decreases |s|
  {
    if s != "" {
      CutAscii(s[1..], if n > 0 then n - 1 else 0);
      assert 0 < n <= |s| ==> [s[0]] + s[1..][..n - 1] == s[..n];
    }
  }

  /** What FormField answers for a field of the form: absent, or the kept text trimmed. */
  function Field(text: Option<string>): Option<string> {
    if text.None? then None else Some(TrimSpace(Cut(text.value, LIMIT)))
  }

  predicate Within(text: Option<string>, bound: nat) {
    text.Some? ==> Utf8Length(text.value) <= bound
  }

  lemma FieldKeeps(text: string)
    requires Within(Some(text), LIMIT)
    ensures Field(Some(text)) == Some(TrimSpace(text))
  {
    CutKeeps(text, LIMIT);
  }
}
