/**
 * Server-sent event framing: what the server prints and how the browser's incremental reader takes it
 * apart, chunk by chunk. A subset of sections 9.2.5 and 9.2.6 of the WHATWG HTML Living Standard: line
 * feeds only, one data line to a message, and the field name followed by exactly one space.
 */
module Sse {
  import opened Seqs

  const NL := '\n'
  const DATA_PREFIX := "data: "
  const BREAK := "\n\n"

  // ---- printing ----

  datatype Frame = Data(payload: string) | Keepalive | Retry(millis: string)

  function Line(f: Frame): string {
    match f
    case Data(p) => DATA_PREFIX + p
    case Keepalive => ":"
    case Retry(n) => "retry: " + n
  }

  function Printed(f: Frame): string { Line(f) + BREAK }

  function Print(fs: seq<Frame>): string { FlatMap(Printed, fs) }

  function Payload(f: Frame): seq<string> { if f.Data? then [f.payload] else [] }

  function Payloads(fs: seq<Frame>): seq<string> { FlatMap(Payload, fs) }

  predicate OneLine(f: Frame) {
    NL !in Line(f)
  }

  /** Byte for byte what goes on the wire. */
  lemma WireFormat(p: string, n: string)
    ensures Printed(Data(p)) == "data: " + p + "\n\n"
    ensures Printed(Keepalive) == ":\n\n"
    ensures Printed(Retry(n)) == "retry: " + n + "\n\n"
  {
  }

  // ---- splitting ----

  predicate BreakAt(s: string, i: int) {
    0 <= i && i + 1 < |s| && s[i] == NL && s[i + 1] == NL
  }

  /** Index of the leftmost blank-line break, or -1. */
  function FirstBreak(s: string): (i: int)
    ensures i == -1 || BreakAt(s, i)
    ensures forall j :: BreakAt(s, j) ==> 0 <= i <= j
  {
    if |s| < 2 then -1
    else if BreakAt(s, 0) then 0
    else
      var i := FirstBreak(s[1..]);
      assert forall j :: BreakAt(s, j) && j > 0 ==> BreakAt(s[1..], j - 1);
      if i < 0 then -1 else i + 1
  }

  /** The complete blocks of a stream, and the fragment after the last break. */
  function Blocks(s: string): seq<string>
    decreases |s|
  {
    var i := FirstBreak(s);
    if i < 0 then [] else [s[..i]] + Blocks(s[i + 2..])
  }

  function Rest(s: string): string
    decreases |s|
  {
    var i := FirstBreak(s);
    if i < 0 then s else Rest(s[i + 2..])
  }

  function Lines(block: string): (ls: seq<string>)
    ensures ls != []
  {
    if block == "" then [""]
    else
      var ls := Lines(block[1..]);
      if block[0] == NL then [""] + ls else [[block[0]] + ls[0]] + ls[1..]
  }

  function Message(line: string): seq<string> {
    if DATA_PREFIX <= line then [line[6..]] else []
  }

  function Messages(block: string): seq<string> { FlatMap(Message, Lines(block)) }

  /** Everything a reader hands to the JSON parser when the stream so far is `s`. */
  function Received(s: string): seq<string> {
    FlatMap(Messages, Blocks(s))
  }

  // ---- the reader ----

  class Reader {
    var buffer: string
    /** Strings handed to the JSON parser, oldest first. */
    var received: seq<string>

    /** `s` is the stream read so far. */
    ghost predicate Consumed(s: string)
      reads this
    {
      buffer == Rest(s) && received == Received(s)
    }

    constructor ()
      ensures Consumed("")
    {
      buffer, received := "", [];
    }

    /** One chunk, however the transport cut it: the state depends only on the stream read so far. */
    method Read(chunk: string, ghost before: string)
      requires Consumed(before)
      modifies this
      ensures Consumed(before + chunk)
    {
      ReceivedStep(before, chunk);
      buffer := buffer + chunk;
      var parts := Blocks(buffer);
      buffer := Rest(buffer);
      ParseBlocks(parts);
    }

    method ParseBlocks(parts: seq<string>)
      modifies this`received
      ensures received == old(received) + FlatMap(Messages, parts)
    {
      for i := 0 to |parts|
        invariant received == old(received) + FlatMap(Messages, parts[..i])
      {
        FlatMapNext(Messages, parts, i);
        ParseBlock(parts[i]);
      }
      assert parts[..|parts|] == parts;
    }

    method ParseBlock(block: string)
      modifies this`received
      ensures received == old(received) + Messages(block)
    {
      var lines := Lines(block);
      for i := 0 to |lines|
        invariant received == old(received) + FlatMap(Message, lines[..i])
      {
        FlatMapNext(Message, lines, i);
        if DATA_PREFIX <= lines[i] {
          received := received + [lines[i][6..]];
        }
      }
      assert lines[..|lines|] == lines;
    }
  }

  // ---- chunking ----

  lemma FirstBreakAppend(x: string, y: string)
    requires FirstBreak(x) >= 0
    ensures FirstBreak(x + y) == FirstBreak(x)
  {
    var i, j := FirstBreak(x), FirstBreak(x + y);
    assert BreakAt(x + y, i);
    assert j <= i;
    assert BreakAt(x, j);
  }

  lemma FirstBlock(s: string, block: string, rest: string)
    requires FirstBreak(s) == |block| && s == block + BREAK + rest
    ensures Blocks(s) == [block] + Blocks(rest) && Rest(s) == Rest(rest)
  {
    assert s[..|block|] == block && s[|block| + 2..] == rest;
  }

  lemma {:induction false} BlocksAppend(x: string, y: string)
    ensures Blocks(x + y) == Blocks(x) + Blocks(Rest(x) + y)
    ensures Rest(x + y) == Rest(Rest(x) + y)
    decreases |x|
  {
    var i := FirstBreak(x);
    if i >= 0 {
      var block, rest := x[..i], x[i + 2..];
      assert x == block + BREAK + rest;
      assert x + y == block + BREAK + (rest + y);
      FirstBreakAppend(x, y);
      FirstBlock(x, block, rest);
      FirstBlock(x + y, block, rest + y);
      BlocksAppend(rest, y);
      Associative([block], Blocks(rest), Blocks(Rest(rest) + y));
    } else {
      assert Blocks(x) + Blocks(x + y) == Blocks(x + y);
    }
  }

  function Flatten(chunks: seq<string>): string { FlatMap((chunk: string) => chunk, chunks) }

  /** A reader fed any chunking of a stream. */
  method ReadAll(chunks: seq<string>) returns (received: seq<string>, buffer: string)
    ensures received == Received(Flatten(chunks)) && buffer == Rest(Flatten(chunks))
  {
    var reader := new Reader();
    for i := 0 to |chunks|
      invariant fresh(reader) && reader.Consumed(Flatten(chunks[..i]))
    {
      FlatMapNext((chunk: string) => chunk, chunks, i);
      reader.Read(chunks[i], Flatten(chunks[..i]));
    }
    assert chunks[..|chunks|] == chunks;
    received, buffer := reader.received, reader.buffer;
  }

  lemma ReceivedStep(x: string, y: string)
    ensures Received(x + y) == Received(x) + FlatMap(Messages, Blocks(Rest(x) + y))
    ensures Rest(x + y) == Rest(Rest(x) + y)
  {
    BlocksAppend(x, y);
    FlatMapAppend(Messages, Blocks(x), Blocks(Rest(x) + y));
  }

  /** Nothing is ever taken back: what a prefix of the stream delivers stays delivered. */
  lemma ReceivedGrows(x: string, s: string)
    requires x <= s
    ensures Received(x) <= Received(s)
  {
    ReceivedStep(x, s[|x|..]);
    assert x + s[|x|..] == s;
  }

  // ---- round trip ----

  lemma {:induction false} SingleLine(line: string)
    requires NL !in line
    ensures Lines(line) == [line]
  {
    if line != "" {
      assert line[0] in line && forall c :: c in line[1..] ==> c in line;
      SingleLine(line[1..]);
      assert [line[0]] + line[1..] == line;
    }
  }

  lemma OneBlock(line: string)
    requires NL !in line
    ensures Blocks(line + BREAK) == [line] && Rest(line + BREAK) == ""
  {
    var s := line + BREAK;
    assert BreakAt(s, |line|);
    assert forall j :: 0 <= j < |line| ==> s[j] in line;
    assert FirstBreak(s) == |line|;
    assert s[..|line|] == line && s[|line| + 2..] == "";
  }

  lemma FrameMessages(f: Frame)
    requires OneLine(f)
    ensures Messages(Line(f)) == Payload(f)
  {
    var line := Line(f);
    SingleLine(line);
    FlatMapOne(Message, line);
    match f
    case Data(p) => assert line[6..] == p && DATA_PREFIX <= line;
    case Keepalive => assert line == ":";
    case Retry(n) => assert line[0] == 'r';
  }

  lemma OneMore(before: string, f: Frame)
    requires OneLine(f) && Rest(before) == ""
    ensures Received(before + Printed(f)) == Received(before) + Payload(f)
    ensures Rest(before + Printed(f)) == ""
  {
    ReceivedStep(before, Printed(f));
    assert "" + Printed(f) == Printed(f);
    OneBlock(Line(f));
    FlatMapOne(Messages, Line(f));
    FrameMessages(f);
  }

  /** The browser receives exactly the payloads sent, in order, and is left between messages. */
  lemma {:induction false} RoundTrip(fs: seq<Frame>)
    requires forall f :: f in fs ==> OneLine(f)
    ensures Received(Print(fs)) == Payloads(fs) && Rest(Print(fs)) == ""
  {
    if fs != [] {
      var l := |fs| - 1;
      RoundTrip(fs[..l]);
      assert fs[l] in fs;
      OneMore(Print(fs[..l]), fs[l]);
    }
  }

  /** However the stream is cut into chunks, and wherever it breaks off, only whole payloads arrive, in order. */
  lemma RoundTripUnderChunking(fs: seq<Frame>, chunks: seq<string>)
    requires forall f :: f in fs ==> OneLine(f)
    requires Flatten(chunks) <= Print(fs)
    ensures Received(Flatten(chunks)) <= Payloads(fs)
    ensures Flatten(chunks) == Print(fs) ==> Received(Flatten(chunks)) == Payloads(fs)
  {
    RoundTrip(fs);
    ReceivedGrows(Flatten(chunks), Print(fs));
  }

  lemma {:induction false} LinesHaveNoNewline(block: string)
    ensures forall l :: l in Lines(block) ==> NL !in l
  {
    if block != "" { LinesHaveNoNewline(block[1..]); }
  }

  lemma {:induction false} MessagesHaveNoNewline(ls: seq<string>, m: string)
    requires (forall l :: l in ls ==> NL !in l) && m in FlatMap(Message, ls)
    ensures NL !in m
  {
    var l := |ls| - 1;
    if m in FlatMap(Message, ls[..l]) {
      MessagesHaveNoNewline(ls[..l], m);
    } else {
      assert ls[l] in ls && m == ls[l][6..];
    }
  }

  lemma {:induction false} ReceivedHaveNoNewline(blocks: seq<string>, m: string)
    requires m in FlatMap(Messages, blocks)
    ensures NL !in m
  {
    var l := |blocks| - 1;
    if m in FlatMap(Messages, blocks[..l]) {
      ReceivedHaveNoNewline(blocks[..l], m);
    } else {
      LinesHaveNoNewline(blocks[l]);
      MessagesHaveNoNewline(Lines(blocks[l]), m);
    }
  }

  /** A payload survives printing and reading exactly when it contains no line feed. */
  lemma PayloadSurvivesIff(p: string)
    ensures Received(Print([Data(p)])) == [p] <==> NL !in p
  {
    if NL !in p {
      RoundTrip([Data(p)]);
      FlatMapOne(Payload, Data(p));
    } else if Received(Print([Data(p)])) == [p] {
      assert p in Received(Print([Data(p)]));
      ReceivedHaveNoNewline(Blocks(Print([Data(p)])), p);
    }
  }
}
