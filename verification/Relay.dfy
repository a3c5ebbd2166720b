/** The streaming relay of chat completions: server-sent-event lines are copied from the
    backend to the client as they come, and the last usage block seen on the way gives the
    work units. */
module Relay {
  import opened Go

  // ----- lines of a stream -----

  /** Length of the first line: through the first LF, or everything when there is none. */
  function LineLength(s: Bytes): (n: nat)
    ensures n <= |s| && (s != [] ==> n > 0)
    ensures forall i :: 0 <= i < n - 1 ==> s[i] != LF
    ensures n < |s| ==> s[n - 1] == LF
  {
    if s == [] then 0
    else if s[0] == LF then 1
    else 1 + LineLength(s[1..])
  }

  predicate Terminated(line: Bytes) { line != [] && line[|line| - 1] == LF }

  function FirstLine(s: Bytes): Bytes { s[..LineLength(s)] }

  function AfterLine(s: Bytes): Bytes { s[LineLength(s)..] }

  function Lines(s: Bytes): seq<Bytes> {
    if s == [] then [] else [FirstLine(s)] + Lines(AfterLine(s))
  }

  function Concat(lines: seq<Bytes>): Bytes {
    if lines == [] then [] else lines[0] + Concat(lines[1..])
  }

  /** A cut of a stream into lines: an LF ends a line and occurs nowhere else in it, and only
      the last line may lack one. */
  ghost predicate Framed(lines: seq<Bytes>) {
    && (forall i :: 0 <= i < |lines| ==> lines[i] != [])
    && (forall i, k :: 0 <= i < |lines| && 0 <= k < |lines[i]| - 1 ==> lines[i][k] != LF)
    && forall i :: 0 <= i < |lines| - 1 ==> Terminated(lines[i])
  }

  lemma FramedCons(line: Bytes, later: seq<Bytes>)
    requires line != [] && (forall k :: 0 <= k < |line| - 1 ==> line[k] != LF)
    requires later != [] ==> Terminated(line)
    requires Framed(later)
    ensures Framed([line] + later)
  {
  }

  lemma FirstLineIsLine(s: Bytes)
    requires s != []
    ensures var line := FirstLine(s);
            line != [] && (forall k :: 0 <= k < |line| - 1 ==> line[k] != LF) && (AfterLine(s) != [] ==> Terminated(line))
    ensures FirstLine(s) + AfterLine(s) == s
  {
  }

  lemma {:induction false} LinesAreFramed(s: Bytes)
    ensures Framed(Lines(s)) && Concat(Lines(s)) == s
    decreases |s|
  {
    if s != [] {
      var line, rest := FirstLine(s), AfterLine(s);
      var later := Lines(rest);
      FirstLineIsLine(s);
      LinesAreFramed(rest);
      assert rest == [] ==> later == [];
      FramedCons(line, later);
      ConcatCons(line, later);
    }
  }

  lemma ConcatCons(line: Bytes, later: seq<Bytes>)
    ensures Concat([line] + later) == line + Concat(later)
  {
    assert ([line] + later)[1..] == later;
  }

  /** There is only one such cut. */
  lemma {:induction false} FramingIsUnique(lines: seq<Bytes>)
    requires Framed(lines)
    ensures Lines(Concat(lines)) == lines
    decreases |lines|
  {
    if lines != [] {
      var rest, s := lines[1..], Concat(lines);
      assert Framed(rest);
      FramingIsUnique(rest);
      var n := |lines[0]|;
      assert s[..n] == lines[0] && s[n..] == Concat(rest);
      assert |lines| == 1 ==> rest == [];
      assert LineLength(s) == n by {
        assert lines[0][n - 1] == s[n - 1];
        assert forall k :: 0 <= k < n - 1 ==> s[k] == lines[0][k];
      }
    }
  }

  // ----- usage -----

  /** What decoding a payload as a stream chunk gives; the decoder is library code. */
  datatype Chunk = Malformed | Decoded(usage: Option<int64>)

  /** The two decoders a line goes through: its bytes as UTF-8 text, and a payload as JSON. */
  datatype Decoders = Decoders(text: Bytes -> string, chunk: string -> Chunk)

  const DATA := "data:"

  /** The payload of a line of text, when it is a data field. */
  function Payload(text: string): Option<string> {
    var field := TrimSpace(text);
    if DATA <= field then Some(TrimSpace(field[|DATA|..])) else None
  }

  function TryParseStreamUsage(line: Bytes, decode: Decoders): Option<int64> {
    match Payload(decode.text(line))
    case None => None
    case Some(payload) =>
      if payload == "[DONE]" then None
      else
        match decode.chunk(payload)
        case Malformed => None
        case Decoded(usage) => usage
  }

  /** Framing white space is irrelevant: any blanks around the field and its payload, a CRLF
      ending included, leave the payload the decoder sees unchanged. */
  lemma PayloadIgnoresFraming(lead: string, gap: string, payload: string, tail: string)
    requires Blank(lead) && Blank(gap) && Blank(tail)
    requires payload != [] && !IsSpace(payload[0]) && !IsSpace(payload[|payload| - 1])
    ensures Payload(lead + (DATA + (gap + payload)) + tail) == Some(payload)
  {
    var value := gap + payload;
    assert value[|value| - 1] == payload[|payload| - 1];
    var field := DATA + value;
    assert field[0] == 'd' && field[|field| - 1] == value[|value| - 1];
    TrimSpaceIs(lead, field, tail);
    assert field[|DATA|..] == value;
    TrimSpaceIs(gap, payload, "");
    assert value + "" == value;
  }

  function UsageToUnits(usage: Option<int64>): int64 {
    if usage.None? then 0 else usage.value
  }

  /** How a line is read for usage: TryParseStreamUsage over some decoders. */
  type UsageReader = Bytes -> Option<int64>

  function StreamUsage(decode: Decoders): UsageReader {
    line => TryParseStreamUsage(line, decode)
  }

  /** So a line carries the usage of its payload, unless that is the terminator or malformed. */
  lemma UsageIgnoresFraming(line: Bytes, decode: Decoders, lead: string, gap: string, payload: string, tail: string)
    requires Blank(lead) && Blank(gap) && Blank(tail)
    requires payload != [] && !IsSpace(payload[0]) && !IsSpace(payload[|payload| - 1])
    requires decode.text(line) == lead + (DATA + (gap + payload)) + tail
    ensures StreamUsage(decode)(line) ==
            if payload == "[DONE]" || decode.chunk(payload).Malformed? then None else decode.chunk(payload).usage
  {
    PayloadIgnoresFraming(lead, gap, payload, tail);
    UsageOfPayload(line, decode, payload);
  }

  /** And only such a line carries any. */
  lemma UsageNeedsData(line: Bytes, decode: Decoders)
    requires StreamUsage(decode)(line).Some?
    ensures DATA <= TrimSpace(decode.text(line))
    ensures
      var payload := TrimSpace(TrimSpace(decode.text(line))[|DATA|..]);
      payload != "[DONE]" && decode.chunk(payload) == Decoded(StreamUsage(decode)(line))
  {
  }

  lemma UsageOfPayload(line: Bytes, decode: Decoders, payload: string)
    requires Payload(decode.text(line)) == Some(payload)
    ensures StreamUsage(decode)(line) ==
            if payload == "[DONE]" || decode.chunk(payload).Malformed? then None else decode.chunk(payload).usage
  {
  }

  /** The last usage that lines carry, if any. */
  function LastUsage(lines: seq<Bytes>, usageOf: UsageReader): Option<int64> {
    if lines == [] then None
    else
      var u := usageOf(lines[|lines| - 1]);
      if u.Some? then u else LastUsage(lines[..|lines| - 1], usageOf)
  }

  /** It is the usage of line i exactly when i carries one and no later line does. */
  lemma {:induction false} LastUsageIs(lines: seq<Bytes>, usageOf: UsageReader)
    ensures LastUsage(lines, usageOf).None? <==> forall i :: 0 <= i < |lines| ==> usageOf(lines[i]).None?
    ensures forall i :: 0 <= i < |lines| && usageOf(lines[i]).Some?
                     && (forall k :: i < k < |lines| ==> usageOf(lines[k]).None?)
                     ==> LastUsage(lines, usageOf) == usageOf(lines[i])
    decreases |lines|
  {
    if lines != [] {
      LastUsageIs(lines[..|lines| - 1], usageOf);
    }
  }

  // ----- the relay -----

  datatype RelayError = NoError | ClientGone | StreamBroken

  /** How the client takes the k-th write: None in full, Some(n) an error after at most n bytes. */
  type Client = nat -> Option<nat>

  /** Lines written in full when the first count lines are offered. */
  function Accepted(client: Client, count: nat): (n: nat)
    ensures n <= count
    ensures forall k :: 0 <= k < n ==> client(k).None?
    ensures n < count ==> client(n).Some?
  {
    if count == 0 then 0
    else
      var before := Accepted(client, count - 1);
      if before == count - 1 && client(count - 1).None? then count else before
  }

  lemma {:induction false} ConcatSnoc(lines: seq<Bytes>, line: Bytes)
    ensures Concat(lines + [line]) == Concat(lines) + line
    decreases |lines|
  {
    if lines == [] {
      assert Concat([line]) == line + Concat([]);
    } else {
      assert (lines + [line])[1..] == lines[1..] + [line];
      ConcatSnoc(lines[1..], line);
    }
  }

  /** Reading a line off what lines n onwards make up yields line n and leaves the others. */
  lemma {:induction false} ReadOne(lines: seq<Bytes>, n: nat)
    requires Framed(lines) && n < |lines|
    ensures
      var rest := Concat(lines[n..]);
      && rest != [] && FirstLine(rest) == lines[n] && AfterLine(rest) == Concat(lines[n + 1..])
      && (n + 1 < |lines| ==> Terminated(lines[n]))
  {
    var later := lines[n..];
    assert later[0] == lines[n] && later[1..] == lines[n + 1..];
    assert Framed(later);
    var rest := Concat(later);
    FramingIsUnique(later);
    assert Lines(rest)[0] == later[0];
    assert FirstLine(rest) == lines[n];
    assert rest == lines[n] + Concat(lines[n + 1..]);
  }

  lemma NothingLeftIff(lines: seq<Bytes>, n: nat)
    requires Framed(lines) && n <= |lines|
    ensures FirstLine(Concat(lines[n..])) == [] <==> n == |lines|
  {
    if n < |lines| {
      ReadOne(lines, n);
    } else {
      assert lines[n..] == [];
    }
  }

  lemma {:induction false} TakeOne(lines: seq<Bytes>, n: nat, usageOf: UsageReader)
    requires n < |lines|
    ensures Concat(lines[..n + 1]) == Concat(lines[..n]) + lines[n]
    ensures LastUsage(lines[..n + 1], usageOf) ==
            if usageOf(lines[n]).Some? then usageOf(lines[n]) else LastUsage(lines[..n], usageOf)
  {
    assert lines[..n + 1] == lines[..n] + [lines[n]];
    ConcatSnoc(lines[..n], lines[n]);
  }

  lemma {:induction false} ConcatPrefix(lines: seq<Bytes>, n: nat)
    requires n <= |lines|
    ensures Concat(lines[..n]) <= Concat(lines)
    decreases |lines|
  {
    if n > 0 {
      assert lines[..n][1..] == lines[1..][..n - 1];
      ConcatPrefix(lines[1..], n - 1);
    }
  }

  /** A refused write ends the count, whatever comes later. */
  lemma {:induction false} RefusedAt(client: Client, n: nat, count: nat)
    requires n < count && Accepted(client, n) == n && client(n).Some?
    ensures Accepted(client, count) == n
    decreases count
  {
    if n + 1 < count {
      RefusedAt(client, n, count - 1);
    }
  }

  /** The relay's promise, of the n lines the client took in full. */
  ghost predicate Promise(lines: seq<Bytes>, broken: bool, n: nat, usageOf: UsageReader,
                          output: Bytes, units: int64, err: RelayError)
    requires n <= |lines|
  {
    && (err == ClientGone <==> n < |lines|)
    && (err == StreamBroken <==> n == |lines| && broken)
    && Concat(lines[..n]) <= output
    && (n < |lines| ==> output <= Concat(lines[..n + 1]))
    && UnitsOf(lines[..n], usageOf, units)
  }

  /** The units are the usage of the last line that carries one, and zero if none does. */
  ghost predicate UnitsOf(lines: seq<Bytes>, usageOf: UsageReader, units: int64) {
    && ((forall i :: 0 <= i < |lines| ==> usageOf(lines[i]).None?) ==> units == 0)
    && forall i :: 0 <= i < |lines| && usageOf(lines[i]).Some?
                   && (forall k :: i < k < |lines| ==> usageOf(lines[k]).None?)
                   ==> usageOf(lines[i]) == Some(units)
  }

  lemma LastUsageGivesUnits(lines: seq<Bytes>, usageOf: UsageReader)
    ensures UnitsOf(lines, usageOf, UsageToUnits(LastUsage(lines, usageOf)))
  {
    LastUsageIs(lines, usageOf);
  }

  /** There is only one such number. */
  lemma {:induction false} UnitsAreUnique(lines: seq<Bytes>, usageOf: UsageReader, units: int64)
    requires UnitsOf(lines, usageOf, units)
    ensures units == UsageToUnits(LastUsage(lines, usageOf))
  {
    LastUsageIs(lines, usageOf);
    if LastUsage(lines, usageOf).Some? {
      var i := LastCarrier(lines, usageOf);
    }
  }

  lemma {:induction false} LastCarrier(lines: seq<Bytes>, usageOf: UsageReader) returns (i: nat)
    requires LastUsage(lines, usageOf).Some?
    ensures i < |lines| && usageOf(lines[i]) == LastUsage(lines, usageOf)
    ensures forall k :: i < k < |lines| ==> usageOf(lines[k]).None?
    decreases |lines|
  {
    var n := |lines| - 1;
    if usageOf(lines[n]).Some? {
      i := n;
    } else {
      i := LastCarrier(lines[..n], usageOf);
    }
  }

  /** A write that fails after part of line n. */
  lemma ClientLeaves(lines: seq<Bytes>, broken: bool, n: nat, usageOf: UsageReader, part: nat)
    requires n < |lines| && part <= |lines[n]|
    ensures
      var output := Concat(lines[..n]) + lines[n][..part];
      && output <= Concat(lines)
      && Promise(lines, broken, n, usageOf, output, UsageToUnits(LastUsage(lines[..n], usageOf)), ClientGone)
  {
    TakeOne(lines, n, usageOf);
    LastUsageGivesUnits(lines[..n], usageOf);
    assert Concat(lines[..n]) + lines[n][..part] <= Concat(lines[..n + 1]);
    ConcatPrefix(lines, n + 1);
  }

  /** The stream has been read to its end. */
  lemma StreamEnds(lines: seq<Bytes>, broken: bool, usageOf: UsageReader)
    ensures lines[..|lines|] == lines
    ensures Promise(lines, broken, |lines|, usageOf, Concat(lines), UsageToUnits(LastUsage(lines, usageOf)),
                    if broken then StreamBroken else NoError)
  {
    assert lines[..|lines|] == lines;
    LastUsageGivesUnits(lines, usageOf);
  }

  /** Relays a stream that ends cleanly or, when broken, in a read error. The output is the
      lines the client accepted and at most a part of the next; it is the whole stream when no
      error is returned, and an error is returned exactly when the client or the stream failed.
      The units are those of the last usage-bearing line among the lines written in full. */
  method ServeStream(stream: Bytes, broken: bool, client: Client, usageOf: UsageReader)
    returns (output: Bytes, units: int64, err: RelayError)
    ensures output <= stream
    ensures err == NoError ==> output == stream
    ensures Promise(Lines(stream), broken, Accepted(client, |Lines(stream)|), usageOf, output, units, err)
  {
    output := [];
    var rest, sent, lastUsage: Option<int64>, reading := stream, 0, None, true;
    ghost var lines := Lines(stream);
    LinesAreFramed(stream);
    assert lines[0..] == lines;
    while reading
      invariant sent <= |lines| && (!reading ==> sent == |lines| && !broken)
      invariant output == Concat(lines[..sent]) && rest == Concat(lines[sent..])
      invariant Accepted(client, sent) == sent
      invariant lastUsage == LastUsage(lines[..sent], usageOf)
      decreases |lines| - sent, reading
    {
      var line := FirstLine(rest);
      NothingLeftIff(lines, sent);
      if |line| > 0 {
        ReadOne(lines, sent);
        TakeOne(lines, sent, usageOf);
        var failure := client(sent);
        if failure.Some? {
          var part := if failure.value <= |line| then failure.value else |line|;
          ClientLeaves(lines, broken, sent, usageOf, part);
          RefusedAt(client, sent, |lines|);
          return output + line[..part], UsageToUnits(lastUsage), ClientGone;
        }
        output := output + line;
        rest := AfterLine(rest);
        sent := sent + 1;
        var usage := usageOf(line);
        if usage.Some? {
          lastUsage := usage;
        }
      }
      if !Terminated(line) {
        assert sent == |lines|;
        if broken {
          StreamEnds(lines, broken, usageOf);
          return output, UsageToUnits(lastUsage), StreamBroken;
        }
        reading := false;
      }
    }
    StreamEnds(lines, broken, usageOf);
    return output, UsageToUnits(lastUsage), NoError;
  }
}
