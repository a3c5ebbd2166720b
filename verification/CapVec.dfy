/** The cardinality-capped counter for one caller: a class with the code's fields, the fold it
    computes, and its exact relation to an uncapped counter. */
module CapVec {
  import opened Go

  type Labels = seq<string>

  const NUL: char := 0 as char

  predicate NulFree(vals: Labels) { forall i :: 0 <= i < |vals| ==> NUL !in vals[i] }

  /** Label values, each followed by a NUL. */
  function JoinNul(vals: Labels): string {
    if vals == [] then "" else JoinNul(vals[..|vals| - 1]) + vals[|vals| - 1] + [NUL]
  }

  /** The two loops of joinNul: the first sizes the buffer, the second fills it exactly. */
  method JoinNulLoop(vals: Labels) returns (out: string, n: nat)
    ensures out == JoinNul(vals)
    ensures n == |out|
  {
    n := 0;
    for i := 0 to |vals|
      invariant n == |JoinNul(vals[..i])|
    {
      assert vals[..i + 1][..i] == vals[..i];
      n := n + |vals[i]| + 1;
    }
    out := "";
    for i := 0 to |vals|
      invariant out == JoinNul(vals[..i])
    {
      assert vals[..i + 1][..i] == vals[..i];
      out := out + vals[i];
      out := out + [NUL];
    }
    assert vals[..|vals|] == vals;
  }

  /** The last value of a joined list can be read back: it is what stands between the last two NULs. */
  lemma LastPiece(a: string, u: string, b: string, v: string)
    requires NUL !in u && NUL !in v
    requires a == "" || a[|a| - 1] == NUL
    requires b == "" || b[|b| - 1] == NUL
    requires a + u + [NUL] == b + v + [NUL]
    ensures a == b && u == v
  {
    var s := a + u;
    assert s == b + v by {
      assert (a + u + [NUL])[..|a + u|] == a + u;
      assert (b + v + [NUL])[..|b + v|] == b + v;
    }
    assert forall i :: |a| <= i < |s| ==> s[i] == u[i - |a|];
    assert forall i :: |b| <= i < |s| ==> s[i] == v[i - |b|];
    assert a != "" ==> s[|a| - 1] == NUL;
    assert b != "" ==> s[|b| - 1] == NUL;
    assert |a| == |b|;
    assert s[..|a|] == a && s[..|b|] == b;
    assert s[|a|..] == u && s[|b|..] == v;
  }

  lemma JoinNulEnds(vals: Labels)
    ensures JoinNul(vals) == "" <==> vals == []
    ensures vals != [] ==> JoinNul(vals)[|JoinNul(vals)| - 1] == NUL
  {
  }

  /** On NUL-free labels the key determines the tuple, whatever its arity. */
  lemma {:induction false} JoinNulInjective(a: Labels, b: Labels)
    requires NulFree(a) && NulFree(b) && JoinNul(a) == JoinNul(b)
    ensures a == b
    decreases |a|
  {
    JoinNulEnds(a);
    JoinNulEnds(b);
    if a != [] {
      var a0, b0 := a[..|a| - 1], b[..|b| - 1];
      JoinNulEnds(a0);
      JoinNulEnds(b0);
      LastPiece(JoinNul(a0), a[|a| - 1], JoinNul(b0), b[|b| - 1]);
      JoinNulInjective(a0, b0);
      assert a == a0 + [a[|a| - 1]] && b == b0 + [b[|b| - 1]];
    }
  }

  // ----- which NULs are harmless -----

  /** A tuple of arity n whose NULs, if any, stand at positions of P. */
  predicate Confined(vals: Labels, n: nat, P: set<nat>) {
    |vals| == n && forall i: nat :: i < n && NUL in vals[i] ==> i in P
  }

  /** The key separates all such tuples. */
  ghost predicate InjectiveOn(n: nat, P: set<nat>) {
    forall a: Labels, b: Labels :: Confined(a, n, P) && Confined(b, n, P) && JoinNul(a) == JoinNul(b) ==> a == b
  }

  lemma {:induction false} JoinNulAppend(a: Labels, b: Labels)
    ensures JoinNul(a + b) == JoinNul(a) + JoinNul(b)
    decreases |b|
  {
    if b == [] {
      assert a + b == a;
    } else {
      var n := |b| - 1;
      assert (a + b)[..|a| + n] == a + b[..n];
      JoinNulAppend(a, b[..n]);
    }
  }

  lemma FirstPiece(u: string, a: string, v: string, b: string)
    requires NUL !in u && NUL !in v && u + [NUL] + a == v + [NUL] + b
    ensures u == v && a == b
  {
    var s := u + [NUL] + a;
    assert s[|u|] == NUL && s[|v|] == NUL;
    assert forall i :: 0 <= i < |u| ==> s[i] == u[i];
    assert forall i :: 0 <= i < |v| ==> s[i] == v[i];
    assert |u| == |v|;
    assert s[..|u|] == u == v;
    assert s[|u| + 1..] == a == b;
  }

  /** NUL-free values in front of anything can be read back, given their number. */
  lemma {:induction false} FrontDetermined(x: Labels, u: string, y: Labels, v: string)
    requires NulFree(x) && NulFree(y) && |x| == |y| && JoinNul(x) + u == JoinNul(y) + v
    ensures x == y && u == v
    decreases |x|
  {
    if x == [] {
      assert JoinNul(x) + u == u && JoinNul(y) + v == v;
    } else {
      JoinNulAppend([x[0]], x[1..]);
      JoinNulAppend([y[0]], y[1..]);
      assert [x[0]] + x[1..] == x && [y[0]] + y[1..] == y;
      JoinNulOne(x[0]);
      JoinNulOne(y[0]);
      assert JoinNul(x) + u == x[0] + [NUL] + (JoinNul(x[1..]) + u);
      assert JoinNul(y) + v == y[0] + [NUL] + (JoinNul(y[1..]) + v);
      FirstPiece(x[0], JoinNul(x[1..]) + u, y[0], JoinNul(y[1..]) + v);
      FrontDetermined(x[1..], u, y[1..], v);
    }
  }

  lemma JoinNulOne(v: string)
    ensures JoinNul([v]) == v + [NUL]
  {
    assert [v][..0] == [];
    assert "" + v == v;
  }

  /** And so can NUL-free values behind anything that ends in a NUL. */
  lemma {:induction false} BackDetermined(u: string, x: Labels, v: string, y: Labels)
    requires NulFree(x) && NulFree(y) && |x| == |y| && u + JoinNul(x) == v + JoinNul(y)
    requires u != "" && u[|u| - 1] == NUL && v != "" && v[|v| - 1] == NUL
    ensures x == y && u == v
    decreases |x|
  {
    if x == [] {
      assert u + JoinNul(x) == u && v + JoinNul(y) == v;
    } else {
      var n := |x| - 1;
      var a, b := u + JoinNul(x[..n]), v + JoinNul(y[..n]);
      JoinNulEnds(x[..n]);
      JoinNulEnds(y[..n]);
      assert u + JoinNul(x) == a + x[n] + [NUL];
      assert v + JoinNul(y) == b + y[n] + [NUL];
      LastPiece(a, x[n], b, y[n]);
      BackDetermined(u, x[..n], v, y[..n]);
      assert x == x[..n] + [x[n]] && y == y[..n] + [y[n]];
    }
  }

  lemma JoinNulMiddle(x: Labels, u: string, y: Labels)
    ensures JoinNul(x + [u] + y) == (JoinNul(x) + (u + [NUL])) + JoinNul(y)
  {
    JoinNulAppend(x + [u], y);
    JoinNulAppend(x, [u]);
    JoinNulOne(u);
  }

  lemma EndsInNul(a: string, u: string)
    ensures var s := a + (u + [NUL]); s != "" && s[|s| - 1] == NUL
  {
  }

  lemma DropNul(u: string, v: string)
    requires u + [NUL] == v + [NUL]
    ensures u == v
  {
    assert u == (u + [NUL])[..|u|] && v == (v + [NUL])[..|v|];
  }

  /** One value of any content between NUL-free ones can be read back, given its position. */
  lemma {:induction false} MiddleDetermined(x: Labels, u: string, y: Labels, x': Labels, u': string, y': Labels)
    requires NulFree(x) && NulFree(y) && NulFree(x') && NulFree(y') && |x| == |x'| && |y| == |y'|
    requires JoinNul(x + [u] + y) == JoinNul(x' + [u'] + y')
    ensures x == x' && u == u' && y == y'
  {
    var s, s' := JoinNul(x) + (u + [NUL]), JoinNul(x') + (u' + [NUL]);
    assert s + JoinNul(y) == s' + JoinNul(y') by {
      JoinNulMiddle(x, u, y);
      JoinNulMiddle(x', u', y');
    }
    EndsInNul(JoinNul(x), u);
    EndsInNul(JoinNul(x'), u');
    BackDetermined(s, y, s', y');
    FrontDetermined(x, u + [NUL], x', u' + [NUL]);
    DropNul(u, u');
  }

  lemma SplitAt(a: Labels, p: nat)
    requires p < |a|
    ensures a == a[..p] + [a[p]] + a[p + 1..]
  {
  }

  lemma SidesAreNulFree(a: Labels, p: nat)
    requires p < |a| && Confined(a, |a|, {p})
    ensures NulFree(a[..p]) && NulFree(a[p + 1..])
  {
  }

  lemma {:induction false} OnePositionIsInjective(a: Labels, b: Labels, p: nat)
    requires p < |a| == |b| && Confined(a, |a|, {p}) && Confined(b, |a|, {p}) && JoinNul(a) == JoinNul(b)
    ensures a == b
  {
    SplitAt(a, p);
    SplitAt(b, p);
    SidesAreNulFree(a, p);
    SidesAreNulFree(b, p);
    MiddleDetermined(a[..p], a[p], a[p + 1..], b[..p], b[p], b[p + 1..]);
  }

  lemma AtMostOneIsInjective(a: Labels, b: Labels, n: nat, P: set<nat>)
    requires |P| <= 1 && Confined(a, n, P) && Confined(b, n, P) && JoinNul(a) == JoinNul(b)
    ensures a == b
  {
    if p :| p in P && p < n {
      assert P == {p} by {
        assert |P - {p}| == 0;
      }
      OnePositionIsInjective(a, b, p);
    } else {
      assert NulFree(a) && NulFree(b);
      JoinNulInjective(a, b);
    }
  }

  /** Empty labels but for one NUL at position p. */
  function Spike(n: nat, p: nat): Labels { seq(n, i => if i == p then [NUL] else "") }

  lemma {:induction false} SpikeKey(n: nat, p: nat)
    ensures JoinNul(Spike(n, p)) == seq(if p < n then n + 1 else n, i => NUL)
  {
    if n > 0 {
      assert Spike(n, p)[..n - 1] == Spike(n - 1, p);
      SpikeKey(n - 1, p);
    }
  }

  /** Shifting a NUL from one position to another leaves the key as it was. */
  lemma TwoPositionsCollide(n: nat, p: nat, q: nat)
    requires p < n && q < n && p != q
    ensures Spike(n, p) != Spike(n, q) && JoinNul(Spike(n, p)) == JoinNul(Spike(n, q))
  {
    SpikeKey(n, p);
    SpikeKey(n, q);
    assert Spike(n, p)[p] != Spike(n, q)[p];
  }

  lemma TwoOf(P: set<nat>) returns (p: nat, q: nat)
    requires |P| > 1
    ensures p in P && q in P && p != q
  {
    p :| p in P;
    assert |P - {p}| > 0;
    q :| q in P - {p};
  }

  /** On tuples of one arity whose NULs are confined to some positions, the key is injective if
      and only if there is at most one such position. */
  lemma KeyInjectiveIff(n: nat, P: set<nat>)
    requires forall i :: i in P ==> i < n
    ensures InjectiveOn(n, P) <==> |P| <= 1
  {
    if |P| <= 1 {
      forall a: Labels, b: Labels | Confined(a, n, P) && Confined(b, n, P) && JoinNul(a) == JoinNul(b)
        ensures a == b
      {
        AtMostOneIsInjective(a, b, n, P);
      }
    } else {
      var p, q := TwoOf(P);
      TwoPositionsCollide(n, p, q);
      assert Confined(Spike(n, p), n, P) && Confined(Spike(n, q), n, P);
    }
  }

  // ----- the state and its fold -----

  datatype Cap = Cap(max: int, seen: set<string>, count: int, exceeded: bool, fired: seq<int>, vec: map<Labels, int>)

  datatype Add = Add(vals: Labels, delta: int)

  function Fresh(max: int): Cap { Cap(max, {}, 0, false, [], map[]) }

  function Value(vec: map<Labels, int>, vals: Labels): int { if vals in vec then vec[vals] else 0 }

  function Bump(vec: map<Labels, int>, vals: Labels, delta: int): map<Labels, int> {
    vec[vals := Value(vec, vals) + delta]
  }

  predicate Admits(c: Cap, vals: Labels) {
    c.max <= 0 || JoinNul(vals) in c.seen || c.count < c.max
  }

  function Allowed(c: Cap, vals: Labels): Cap {
    var key := JoinNul(vals);
    if c.max <= 0 || key in c.seen then c
    else if c.count >= c.max then
      c.(exceeded := true, fired := if c.exceeded then c.fired else c.fired + [c.count])
    else c.(seen := c.seen + {key}, count := c.count + 1)
  }

  function Added(c: Cap, call: Add): Cap {
    if Admits(c, call.vals) then
      var c' := Allowed(c, call.vals);
      c'.(vec := Bump(c'.vec, call.vals, call.delta))
    else Allowed(c, call.vals)
  }

  function AddedAll(max: int, calls: seq<Add>): Cap {
    if calls == [] then Fresh(max) else Added(AddedAll(max, calls[..|calls| - 1]), calls[|calls| - 1])
  }

  /** The code: seen tuples, their count, the once-only flag and the counter vector, changed in
      place; each call is proved to be one step of the fold. */
  class Counter {
    const max: int
    var seen: set<string>
    var count: int
    var exceeded: bool
    var fired: seq<int>
    var vec: map<Labels, int>

    ghost function View(): Cap
      reads this
    {
      Cap(max, seen, count, exceeded, fired, vec)
    }

    constructor (max: int)
      ensures View() == Fresh(max)
    {
      this.max := max;
      seen, count, exceeded, fired, vec := {}, 0, false, [], map[];
    }

    method Allow(vals: Labels) returns (ok: bool)
      modifies this
      ensures ok == Admits(old(View()), vals)
      ensures View() == Allowed(old(View()), vals)
    {
      if max <= 0 {
        return true;
      }
      var key, _ := JoinNulLoop(vals);
      if key in seen {
        return true;
      }
      if count >= max {
        if !exceeded {
          exceeded := true;
          fired := fired + [count];
        }
        return false;
      }
      seen := seen + {key};
      count := count + 1;
      return true;
    }

    method AddTo(vals: Labels, delta: int)
      modifies this
      ensures View() == Added(old(View()), Add(vals, delta))
    {
      var ok := Allow(vals);
      if ok {
        vec := Bump(vec, vals, delta);
      }
    }
  }

  // ----- against the uncapped counter -----

  /** What a counter without a cap would show. */
  function Uncapped(calls: seq<Add>, vals: Labels): int {
    if calls == [] then 0
    else
      var call := calls[|calls| - 1];
      Uncapped(calls[..|calls| - 1], vals) + if call.vals == vals then call.delta else 0
  }

  /** The distinct keys of the calls in order of first use. */
  function Keys(calls: seq<Add>): seq<string> {
    if calls == [] then []
    else
      var before, key := Keys(calls[..|calls| - 1]), JoinNul(calls[|calls| - 1].vals);
      if key in before then before else before + [key]
  }

  function First(keys: seq<string>, max: nat): seq<string> {
    if |keys| <= max then keys else keys[..max]
  }

  lemma {:induction false} KeysDistinct(calls: seq<Add>)
    ensures forall i, j :: 0 <= i < j < |Keys(calls)| ==> Keys(calls)[i] != Keys(calls)[j]
    decreases |calls|
  {
    if calls != [] {
      KeysDistinct(calls[..|calls| - 1]);
    }
  }

  /** The seen set is the first max distinct keys, and count is its size. */
  lemma {:induction false} SeenIsFirstKeys(max: nat, calls: seq<Add>)
    requires max > 0
    ensures
      var c := AddedAll(max, calls);
      && c.max == max
      && (forall k :: k in c.seen <==> k in First(Keys(calls), max))
      && c.count == |First(Keys(calls), max)|
    decreases |calls|
  {
    if calls != [] {
      var n := |calls| - 1;
      SeenIsFirstKeys(max, calls[..n]);
      var before, key := Keys(calls[..n]), JoinNul(calls[n].vals);
      if key !in before && |before| < max {
        assert First(before + [key], max) == First(before, max) + [key];
      } else if key !in before {
        assert First(before + [key], max) == First(before, max);
      }
    }
  }

  /** Membership in the first max keys never changes once a key has been used. */
  lemma FirstIsStable(calls: seq<Add>, max: nat, key: string)
    requires calls != []
    ensures
      var before := Keys(calls[..|calls| - 1]);
      key in before ==> (key in First(Keys(calls), max) <==> key in First(before, max))
  {
    KeysDistinct(calls);
    var n := |calls| - 1;
    var before := Keys(calls[..n]);
    var k := JoinNul(calls[n].vals);
    if key in before && k !in before {
      assert First(before + [k], max) == First(before, max) || First(before + [k], max) == First(before, max) + [k];
    }
  }

  lemma {:induction false} UnusedIsZero(calls: seq<Add>, vals: Labels)
    requires JoinNul(vals) !in Keys(calls)
    ensures Uncapped(calls, vals) == 0
    decreases |calls|
  {
    if calls != [] {
      UnusedIsZero(calls[..|calls| - 1], vals);
    }
  }

  /** One caller, any labels, any deltas: a tuple's capped counter is the uncapped one if its
      key is among the first max distinct keys, and zero otherwise. */
  lemma {:induction false} CappedByKey(max: nat, calls: seq<Add>, vals: Labels)
    requires max > 0
    ensures Value(AddedAll(max, calls).vec, vals)
            == if JoinNul(vals) in First(Keys(calls), max) then Uncapped(calls, vals) else 0
    decreases |calls|
  {
    if calls != [] {
      var n := |calls| - 1;
      var key := JoinNul(vals);
      CappedByKey(max, calls[..n], vals);
      SeenIsFirstKeys(max, calls[..n]);
      FirstIsStable(calls, max, key);
      if key !in Keys(calls[..n]) {
        UnusedIsZero(calls[..n], vals);
      }
    }
  }

  /** A disabled cap is no cap: every tuple counts in full, nothing is tracked and the callback
      never fires. */
  lemma {:induction false} DisabledCapCountsAll(max: int, calls: seq<Add>, vals: Labels)
    requires max <= 0
    ensures
      var c := AddedAll(max, calls);
      && Value(c.vec, vals) == Uncapped(calls, vals)
      && c.max == max && c.fired == [] && !c.exceeded && c.seen == {} && c.count == 0
    decreases |calls|
  {
    if calls != [] {
      DisabledCapCountsAll(max, calls[..|calls| - 1], vals);
    }
  }

  /** The distinct tuples of the calls in order of first use. */
  function Tuples(calls: seq<Add>): seq<Labels> {
    if calls == [] then []
    else
      var before, vals := Tuples(calls[..|calls| - 1]), calls[|calls| - 1].vals;
      if vals in before then before else before + [vals]
  }

  predicate AllConfined(calls: seq<Add>, n: nat, P: set<nat>) {
    forall i :: 0 <= i < |calls| ==> Confined(calls[i].vals, n, P)
  }

  /** With at most one position for NULs, distinct tuples and distinct keys correspond one to one,
      in order. */
  lemma {:induction false} KeysOfTuples(calls: seq<Add>, n: nat, P: set<nat>)
    requires |P| <= 1 && AllConfined(calls, n, P)
    ensures |Keys(calls)| == |Tuples(calls)|
    ensures forall i :: 0 <= i < |Tuples(calls)| ==>
              Confined(Tuples(calls)[i], n, P) && Keys(calls)[i] == JoinNul(Tuples(calls)[i])
    decreases |calls|
  {
    if calls != [] {
      var m := |calls| - 1;
      KeysOfTuples(calls[..m], n, P);
      var vals, tuples, keys := calls[m].vals, Tuples(calls[..m]), Keys(calls[..m]);
      if JoinNul(vals) in keys {
        var i :| 0 <= i < |keys| && keys[i] == JoinNul(vals);
        AtMostOneIsInjective(tuples[i], vals, n, P);
      }
    }
  }

  /** The cap as documented: the first max distinct label tuples count as if there were no cap,
      and every later tuple stays at zero. */
  ghost predicate CapsTuples(max: nat, calls: seq<Add>, vals: Labels) {
    Value(AddedAll(max, calls).vec, vals)
    == if exists i :: 0 <= i < max && i < |Tuples(calls)| && Tuples(calls)[i] == vals
       then Uncapped(calls, vals) else 0
  }

  /** It holds of every call sequence whose labels hold NULs at one position at most. */
  lemma CappedIsFirstTuples(max: nat, calls: seq<Add>, vals: Labels, n: nat, P: set<nat>)
    requires max > 0 && |P| <= 1 && AllConfined(calls, n, P) && Confined(vals, n, P)
    ensures CapsTuples(max, calls, vals)
  {
    CappedByKey(max, calls, vals);
    KeysOfTuples(calls, n, P);
    var keys, tuples := Keys(calls), Tuples(calls);
    if JoinNul(vals) in First(keys, max) {
      var i :| 0 <= i < |First(keys, max)| && First(keys, max)[i] == JoinNul(vals);
      AtMostOneIsInjective(tuples[i], vals, n, P);
    }
    if i :| 0 <= i < max && i < |tuples| && tuples[i] == vals {
      assert First(keys, max)[i] == JoinNul(vals);
    }
  }

  /** With two positions a cap of 1 counts two tuples. */
  lemma TwoPositionsBreakTheCap(n: nat, p: nat, q: nat)
    requires p < n && q < n && p != q
    ensures !CapsTuples(1, [Add(Spike(n, p), 1), Add(Spike(n, q), 1)], Spike(n, q))
  {
    var a, b := Spike(n, p), Spike(n, q);
    var calls := [Add(a, 1), Add(b, 1)];
    TwoPositionsCollide(n, p, q);
    assert calls[..1] == [Add(a, 1)] && calls[..1][..0] == [];
    assert Tuples(calls[..1]) == [a] && Keys(calls[..1]) == [JoinNul(a)];
    assert Tuples(calls) == [a, b] && Keys(calls) == [JoinNul(a)];
    CappedByKey(1, calls, b);
    assert Uncapped(calls[..1], b) == 0;
  }

  /** Exactly when the cap keeps its promise, over all caps, calls and tuples. */
  lemma CapHoldsIff(n: nat, P: set<nat>)
    requires forall i :: i in P ==> i < n
    ensures
      (forall max: nat, calls: seq<Add>, vals: Labels ::
         max > 0 && AllConfined(calls, n, P) && Confined(vals, n, P) ==> CapsTuples(max, calls, vals))
      <==> |P| <= 1
  {
    if |P| <= 1 {
      forall max: nat, calls: seq<Add>, vals: Labels | max > 0 && AllConfined(calls, n, P) && Confined(vals, n, P)
        ensures CapsTuples(max, calls, vals)
      {
        CappedIsFirstTuples(max, calls, vals, n, P);
      }
    } else {
      var p, q := TwoOf(P);
      var calls := [Add(Spike(n, p), 1), Add(Spike(n, q), 1)];
      TwoPositionsBreakTheCap(n, p, q);
      assert AllConfined(calls, n, P) && Confined(Spike(n, q), n, P);
      assert !CapsTuples(1, calls, Spike(n, q));
    }
  }

  // ----- the series this program emits -----

  /** A label value fixed by the program: a capability, unit, outcome, method, class or reason. */
  type Constant = s: string | NUL !in s witness ""

  const LABEL_UNSET: Constant := "_unset_"

  function Unset(v: string): (shown: string)
    ensures shown == v || (v == "" && shown == LABEL_UNSET)
    ensures shown != ""
  {
    if v == "" then LABEL_UNSET else v
  }

  /** What the recorder is told; the model name is the client's choice. */
  datatype Emission =
    | Request(capability: Constant, model: string, outcome: Constant)
    | WorkUnits(capability: Constant, model: string, unit: Constant)
    | DaemonCall(rpc: Constant, outcome: Constant)
    | BackendRequest(capability: Constant, model: string, outcome: Constant)
    | BackendError(capability: Constant, model: string, errorClass: Constant)
    | TokenizerCall(model: string, outcome: Constant)
    | CapacityRejection(capability: Constant)
    | PaymentRejection(reason: Constant)

  datatype Vec = Requests | Units | DaemonCalls | BackendRequests | BackendErrors | TokenizerCalls
               | CapacityRejections | PaymentRejections

  function VecOf(e: Emission): Vec {
    match e
    case Request(_, _, _) => Requests
    case WorkUnits(_, _, _) => Units
    case DaemonCall(_, _) => DaemonCalls
    case BackendRequest(_, _, _) => BackendRequests
    case BackendError(_, _, _) => BackendErrors
    case TokenizerCall(_, _) => TokenizerCalls
    case CapacityRejection(_) => CapacityRejections
    case PaymentRejection(_) => PaymentRejections
  }

  function LabelsOf(e: Emission): Labels {
    match e
    case Request(c, m, o) => [Unset(c), Unset(m), Unset(o)]
    case WorkUnits(c, m, u) => [Unset(c), Unset(m), Unset(u)]
    case DaemonCall(r, o) => [Unset(r), Unset(o)]
    case BackendRequest(c, m, o) => [Unset(c), Unset(m), Unset(o)]
    case BackendError(c, m, x) => [Unset(c), Unset(m), Unset(x)]
    case TokenizerCall(m, o) => [Unset(m), Unset(o)]
    case CapacityRejection(c) => [Unset(c)]
    case PaymentRejection(r) => [Unset(r)]
  }

  predicate Complete(e: Emission) { forall i :: 0 <= i < |RawLabels(e)| ==> RawLabels(e)[i] != "" }

  /** The labels before empty ones are replaced. */
  function RawLabels(e: Emission): Labels {
    match e
    case Request(c, m, o) => [c, m, o]
    case WorkUnits(c, m, u) => [c, m, u]
    case DaemonCall(r, o) => [r, o]
    case BackendRequest(c, m, o) => [c, m, o]
    case BackendError(c, m, x) => [c, m, x]
    case TokenizerCall(m, o) => [m, o]
    case CapacityRejection(c) => [c]
    case PaymentRejection(r) => [r]
  }

  /** Nothing an emission says is lost: complete emissions of one vector show the same labels if
      and only if they are the same. */
  lemma LabelsDetermineEmission(a: Emission, b: Emission)
    requires VecOf(a) == VecOf(b) && Complete(a) && Complete(b)
    ensures LabelsOf(a) == LabelsOf(b) <==> a == b
  {
    CompleteIsRaw(a);
    CompleteIsRaw(b);
  }

  lemma CompleteIsRaw(e: Emission)
    requires Complete(e)
    ensures LabelsOf(e) == RawLabels(e)
  {
    assert forall i :: 0 <= i < |RawLabels(e)| ==> Unset(RawLabels(e)[i]) == RawLabels(e)[i];
  }

  function Arity(v: Vec): nat {
    match v
    case DaemonCalls | TokenizerCalls => 2
    case CapacityRejections | PaymentRejections => 1
    case _ => 3
  }

  /** Where a vector's model label stands, if it has one. */
  function ModelAt(v: Vec): set<nat> {
    match v
    case DaemonCalls | CapacityRejections | PaymentRejections => {}
    case TokenizerCalls => {0}
    case _ => {1}
  }

  lemma EmissionIsConfined(e: Emission)
    ensures Confined(LabelsOf(e), Arity(VecOf(e)), ModelAt(VecOf(e))) && |ModelAt(VecOf(e))| <= 1
  {
  }

  datatype Told = Told(what: Emission, delta: int)

  function CallsOf(told: seq<Told>): seq<Add> {
    seq(|told|, i requires 0 <= i < |told| => Add(LabelsOf(told[i].what), told[i].delta))
  }

  /** Every series the program emits obeys the cap, whatever model names clients send, NULs
      included: on each vector the first max distinct tuples count in full and the rest not. */
  lemma EmittedSeriesAreExact(v: Vec, max: nat, told: seq<Told>, e: Emission)
    requires max > 0 && VecOf(e) == v && forall i :: 0 <= i < |told| ==> VecOf(told[i].what) == v
    ensures CapsTuples(max, CallsOf(told), LabelsOf(e))
  {
    var calls := CallsOf(told);
    forall i | 0 <= i < |calls| ensures Confined(calls[i].vals, Arity(v), ModelAt(v)) {
      EmissionIsConfined(told[i].what);
    }
    EmissionIsConfined(e);
    CappedIsFirstTuples(max, calls, LabelsOf(e), Arity(v), ModelAt(v));
  }

  /** The exceed callback fires at most once, and only with an observed count of at least max. */
  lemma {:induction false} FiresOnce(max: nat, calls: seq<Add>)
    requires max > 0
    ensures
      var c := AddedAll(max, calls);
      && |c.fired| <= 1 && (c.exceeded <==> c.fired != [])
      && (forall i :: 0 <= i < |c.fired| ==> c.fired[i] >= max)
      && (c.exceeded <==> |Keys(calls)| > max)
      && c.fired == (if |Keys(calls)| > max then [max] else [])
    decreases |calls|
  {
    if calls != [] {
      var n := |calls| - 1;
      FiresOnce(max, calls[..n]);
      SeenIsFirstKeys(max, calls[..n]);
    }
  }
}
