/** The word-count tokenizer: white-space runs counted and scaled by a fixed-point multiplier. */
module Tokenizer {
  import opened Go
  import opened Metering

  /** The separators are the six ASCII white-space characters. */
  predicate IsSep(r: char) { IsAsciiSpace(r) }

  lemma SeparatorsAre(c: char)
    ensures IsSep(c) <==> c in {' ', '\t', '\n', '\r', 11 as char, 12 as char}
  {
  }

  // ----- runs -----

  /** s[i..j] is a longest stretch without separators. */
  ghost predicate MaximalRun(s: string, i: int, j: int) {
    && 0 <= i < j <= |s|
    && (forall k :: i <= k < j ==> !IsSep(s[k]))
    && (i == 0 || IsSep(s[i - 1]))
    && (j == |s| || IsSep(s[j]))
  }

  ghost predicate BeginsRun(s: string, i: int) { exists j :: MaximalRun(s, i, j) }

  /** The maximal runs, as (start, end) pairs. */
  ghost function Runs(s: string): set<(int, int)> {
    set i, j | 0 <= i < j <= |s| && MaximalRun(s, i, j) :: (i, j)
  }

  /** Where the maximal runs begin. */
  ghost function RunStarts(s: string): set<int> {
    set i | 0 <= i < |s| && BeginsRun(s, i)
  }

  lemma RunHasOneEnd(s: string, i: int, j: int, k: int)
    requires MaximalRun(s, i, j) && MaximalRun(s, i, k)
    ensures j == k
  {
  }

  /** A set of pairs no two of which share a first component is as large as its projection. */
  lemma {:induction false} FirstComponents(pairs: set<(int, int)>, firsts: set<int>)
    requires forall x, y :: x in pairs && y in pairs && x.0 == y.0 ==> x == y
    requires forall i :: i in firsts <==> exists x :: x in pairs && x.0 == i
    ensures |pairs| == |firsts|
    decreases |pairs|
  {
    if pairs == {} {
      assert forall i :: i in firsts ==> exists x :: x in pairs && x.0 == i;
    } else {
      var x :| x in pairs;
      FirstComponents(pairs - {x}, firsts - {x.0});
    }
  }

  lemma RunsAndStarts(s: string)
    ensures |Runs(s)| == |RunStarts(s)|
  {
    var runs := Runs(s);
    forall x, y | x in runs && y in runs && x.0 == y.0 ensures x == y {
      RunHasOneEnd(s, x.0, x.1, y.1);
    }
    forall i ensures i in RunStarts(s) <==> exists x :: x in runs && x.0 == i {
      if i in RunStarts(s) {
        var j :| MaximalRun(s, i, j);
        assert (i, j) in runs;
      }
    }
    FirstComponents(runs, RunStarts(s));
  }

  predicate StartsRun(s: string, i: nat)
    requires i < |s|
  {
    !IsSep(s[i]) && (i == 0 || IsSep(s[i - 1]))
  }

  lemma StartsRunIff(s: string, i: nat)
    requires i < |s|
    ensures StartsRun(s, i) <==> BeginsRun(s, i)
  {
    if StartsRun(s, i) {
      var j := i + 1;
      while j < |s| && !IsSep(s[j])
        invariant i < j <= |s|
        invariant forall k :: i <= k < j ==> !IsSep(s[k])
      {
        j := j + 1;
      }
      assert MaximalRun(s, i, j);
    }
  }

  function Words(s: string): nat {
    if s == [] then 0
    else Words(s[..|s| - 1]) + if StartsRun(s, |s| - 1) then 1 else 0
  }

  lemma {:induction false} WordsCountStarts(s: string)
    ensures |RunStarts(s)| == Words(s)
    decreases |s|
  {
    forall i | 0 <= i < |s| ensures i in RunStarts(s) <==> StartsRun(s, i) {
      StartsRunIff(s, i);
    }
    if s != [] {
      var n := |s| - 1;
      var init := s[..n];
      WordsCountStarts(init);
      forall i | 0 <= i < n ensures i in RunStarts(init) <==> StartsRun(s, i) {
        StartsRunIff(init, i);
      }
      assert RunStarts(s) == RunStarts(init) + if StartsRun(s, n) then {n} else {};
    } else {
      assert RunStarts(s) == {};
    }
  }

  /** The words are the maximal runs. */
  lemma WordsCountRuns(s: string)
    ensures |Runs(s)| == Words(s)
  {
    RunsAndStarts(s);
    WordsCountStarts(s);
  }

  // ----- counting tokens -----

  function NewWordCount(multiplierPct: int64): (mul: int64)
    ensures mul > 0
    ensures multiplierPct > 0 ==> mul == multiplierPct
    ensures multiplierPct <= 0 ==> mul == 133
  {
    if multiplierPct <= 0 then 133 else multiplierPct
  }

  function Scaled(mul: int64, words: nat): int64 {
    if words == 0 then 0 else RoundUp(Wrap64(words * mul), 100)
  }

  function Tokens(mul: int64, s: string): int64 { Scaled(mul, Words(s)) }

  ghost predicate Fits(mul: int64, words: nat) { words * mul + 99 <= MAX_INT64 }

  lemma ScaledExactIff(mul: int64, words: nat)
    requires mul > 0
    ensures IsCeiling(Scaled(mul, words), words * mul, 100) <==> Fits(mul, words)
  {
    if words > 0 {
      MulMono(1, words, mul);
      RoundUpExactIff(words * mul, 100);
    }
  }

  method CountTokens(mul: int64, s: string) returns (tokens: int64)
    ensures tokens == Tokens(mul, s)
  {
    if s == "" {
      return 0;
    }
    var words, inToken := 0, false;
    for k := 0 to |s|
      invariant words == Words(s[..k])
      invariant inToken <==> k > 0 && !IsSep(s[k - 1])
    {
      assert s[..k + 1][..k] == s[..k];
      if IsSep(s[k]) {
        inToken := false;
        continue;
      }
      if !inToken {
        words := words + 1;
        inToken := true;
      }
    }
    assert s[..|s|] == s;
    if words == 0 {
      return 0;
    }
    return TruncDiv(Wrap64(Wrap64(words * mul) + 99), 100);
  }

  /** The count is the ceiling of runs * mul / 100 if and only if the scaled count leaves room
      for the rounding in 64 bits. */
  lemma TokensAreCeiling(mul: int64, s: string)
    requires mul > 0
    ensures IsCeiling(Tokens(mul, s), |Runs(s)| * mul, 100) <==> |Runs(s)| * mul + 99 <= MAX_INT64
  {
    WordsCountRuns(s);
    ScaledExactIff(mul, Words(s));
  }

  // ----- joining -----

  /** The parts joined by one space. */
  function Join(parts: seq<string>): string {
    if parts == [] then ""
    else if |parts| == 1 then parts[0]
    else Join(parts[..|parts| - 1]) + " " + parts[|parts| - 1]
  }

  /** Counting the joined text saves at most one token of rounding per join, and never costs
      any. */
  method CountJoined(mul: int64, parts: seq<string>) returns (tokens: int64)
    ensures tokens == Tokens(mul, Join(parts))
    ensures mul > 0 && parts != [] && Fits(mul, Words(Join(parts))) ==>
              TotalTokens(mul, parts) - (|parts| - 1) <= tokens <= TotalTokens(mul, parts)
  {
    if mul > 0 && parts != [] && Fits(mul, Words(Join(parts))) {
      JoinedBounds(mul, parts);
    }
    tokens := CountTokens(mul, Join(parts));
  }

  lemma {:induction false} WordsAcrossSpace(a: string, b: string)
    ensures Words(a + " " + b) == Words(a) + Words(b)
    decreases |b|
  {
    var s := a + " " + b;
    if b == [] {
      assert s[..|a|] == a && s[|a|] == ' ';
    } else {
      var n := |b| - 1;
      WordsAcrossSpace(a, b[..n]);
      assert s[..|s| - 1] == a + " " + b[..n];
      assert s[|s| - 1] == b[n] && (n > 0 ==> s[|s| - 2] == b[n - 1]) && s[|a|] == ' ';
    }
  }

  function TotalTokens(mul: int64, parts: seq<string>): int {
    if parts == [] then 0
    else TotalTokens(mul, parts[..|parts| - 1]) + Tokens(mul, parts[|parts| - 1])
  }

  lemma CeilingOfSum(u: int, v: int, t: int, p: int, q: int, d: int)
    requires d > 0 && IsCeiling(u, p, d) && IsCeiling(v, q, d) && IsCeiling(t, p + q, d)
    ensures t <= u + v <= t + 1
  {
    if t > u + v {
      MulMono(u + v, t - 1, d);
    }
    if u + v > t + 1 {
      MulMono(t, u + v - 2, d);
    }
  }

  lemma PartsFit(mul: int64, x: nat, y: nat)
    requires mul > 0 && Fits(mul, x + y)
    ensures Fits(mul, x) && Fits(mul, y)
  {
    MulMono(x, x + y, mul);
    MulMono(y, x + y, mul);
  }

  lemma ScaledSum(mul: int64, x: nat, y: nat)
    requires mul > 0 && Fits(mul, x + y)
    ensures Scaled(mul, x + y) <= Scaled(mul, x) + Scaled(mul, y) <= Scaled(mul, x + y) + 1
  {
    PartsFit(mul, x, y);
    ScaledExactIff(mul, x);
    ScaledExactIff(mul, y);
    ScaledExactIff(mul, x + y);
    assert (x + y) * mul == x * mul + y * mul;
    CeilingOfSum(Scaled(mul, x), Scaled(mul, y), Scaled(mul, x + y), x * mul, y * mul, 100);
  }

  lemma {:induction false} JoinedBounds(mul: int64, parts: seq<string>)
    requires mul > 0 && parts != [] && Fits(mul, Words(Join(parts)))
    ensures TotalTokens(mul, parts) - (|parts| - 1) <= Tokens(mul, Join(parts)) <= TotalTokens(mul, parts)
    decreases |parts|
  {
    var n := |parts| - 1;
    if n == 0 {
      assert TotalTokens(mul, parts[..0]) == 0;
    } else {
      var a, b := Join(parts[..n]), parts[n];
      WordsAcrossSpace(a, b);
      PartsFit(mul, Words(a), Words(b));
      ScaledSum(mul, Words(a), Words(b));
      JoinedBounds(mul, parts[..n]);
    }
  }
}
