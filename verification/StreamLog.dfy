/** What one SSE connection has done so far, and what every such history guarantees. */
module StreamLog {
  import opened Seqs
  import opened Sse
  import opened TokenBucket

  /** The bytes on the wire, whether a write has failed, the counters, and the bandwidth budget. */
  datatype Connection = Connection(wire: string, broken: bool, messages: nat, bytes: int, bucket: Bucket)

  /** The budget was asked, a frame went out (admitted or not), or a write failed after part of one. */
  datatype Entry = Ask(at: real) | Out(f: Frame, admitted: bool) | Fail(f: Frame, part: string)

  function New(rate: real, now: real): Connection {
    Connection("", false, 0, 0, Full(rate, now))
  }

  function Step(c: Connection, e: Entry): Connection {
    match e
    case Ask(at) => c.(bucket := Refill(c.bucket, at))
    case Out(Data(p), _) =>
      c.(wire := c.wire + Printed(Data(p)), messages := c.messages + 1, bytes := c.bytes + |Printed(Data(p))|,
         bucket := Spend(c.bucket, |p|))
    case Out(Keepalive, _) => c.(wire := c.wire + Printed(Keepalive), bytes := c.bytes + |Printed(Keepalive)|)
    case Out(Retry(n), _) => c.(wire := c.wire + Printed(Retry(n)))
    case Fail(_, part) => c.(wire := c.wire + part, broken := true)
  }

  /** A connection whose write failed stays broken; a batch counts as admitted when the budget holds it. */
  predicate Possible(c: Connection, e: Entry) {
    match e
    case Ask(at) => c.bucket.lastRefill <= at
    case Out(f, admitted) =>
      !c.broken && OneLine(f) && (admitted ==> f.Data? && |f.payload| as real <= c.bucket.tokens)
    case Fail(f, part) => OneLine(f) && part <= Printed(f) && (c.broken ==> part == "")
  }

  function After(c: Connection, log: seq<Entry>): Connection {
    if log == [] then c else Step(After(c, log[..|log| - 1]), log[|log| - 1])
  }

  predicate History(c: Connection, log: seq<Entry>) {
    log == [] || (History(c, log[..|log| - 1]) && Possible(After(c, log[..|log| - 1]), log[|log| - 1]))
  }

  lemma OneMoreEntry(c: Connection, log: seq<Entry>, e: Entry)
    ensures After(c, log + [e]) == Step(After(c, log), e)
    ensures History(c, log + [e]) <==> History(c, log) && Possible(After(c, log), e)
  {
    assert (log + [e])[..|log|] == log;
  }

  /** The frames sent whole, in order. */
  function Frames(log: seq<Entry>): seq<Frame> {
    if log == [] then []
    else Frames(log[..|log| - 1]) + (if log[|log| - 1].Out? then [log[|log| - 1].f] else [])
  }

  function Uses(c: Connection, log: seq<Entry>): seq<Use> {
    if log == [] then []
    else Uses(c, log[..|log| - 1]) + UseOf(After(c, log[..|log| - 1]), log[|log| - 1])
  }

  function UseOf(c: Connection, e: Entry): seq<Use> {
    match e
    case Ask(at) => [Asked(at)]
    case Out(Data(p), admitted) => [if admitted then Admitted(c.bucket.lastRefill, |p|) else Forced(|p|)]
    case Out(_, _) => []
    case Fail(_, _) => []
  }

  function PayloadBytes(fs: seq<Frame>): nat {
    if fs == [] then 0
    else PayloadBytes(fs[..|fs| - 1]) + (if fs[|fs| - 1].Data? then |fs[|fs| - 1].payload| else 0)
  }

  /** What the byte counter counts: everything but retry hints. */
  function CountedBytes(fs: seq<Frame>): nat {
    if fs == [] then 0
    else CountedBytes(fs[..|fs| - 1]) + (if fs[|fs| - 1].Retry? then 0 else |Printed(fs[|fs| - 1])|)
  }

  lemma OneMoreFrame(fs: seq<Frame>, f: Frame)
    ensures Print(fs + [f]) == Print(fs) + Printed(f)
    ensures Payloads(fs + [f]) == Payloads(fs) + Payload(f)
    ensures PayloadBytes(fs + [f]) == PayloadBytes(fs) + (if f.Data? then |f.payload| else 0)
    ensures CountedBytes(fs + [f]) == CountedBytes(fs) + (if f.Retry? then 0 else |Printed(f)|)
  {
    FlatMapLast(Printed, fs, f);
    FlatMapLast(Payload, fs, f);
    assert (fs + [f])[..|fs|] == fs;
  }

  /** The counters are exact: messages are the payloads sent, bytes are everything but the retry hint. */
  lemma {:induction false} CountersAreExact(rate: real, now: real, log: seq<Entry>)
    requires History(New(rate, now), log)
    ensures var c := After(New(rate, now), log);
            c.messages == |Payloads(Frames(log))| && c.bytes == CountedBytes(Frames(log))
  {
    if log != [] {
      var past, e := log[..|log| - 1], log[|log| - 1];
      CountersAreExact(rate, now, past);
      if e.Out? { OneMoreFrame(Frames(past), e.f); } else { assert Frames(log) == Frames(past); }
    }
  }

  lemma BudgetStep(b: Bucket, uses: seq<Use>, c: Connection, e: Entry)
    requires c.bucket == Run(b, uses) && Legal(b, uses) && Possible(c, e)
    ensures Step(c, e).bucket == Run(b, uses + UseOf(c, e)) && Legal(b, uses + UseOf(c, e))
    ensures Charged(uses + UseOf(c, e)) == Charged(uses) + (if e.Out? && e.f.Data? then |e.f.payload| else 0)
  {
    if UseOf(c, e) == [] {
      assert uses + [] == uses;
    } else {
      OneMoreUse(b, uses, UseOf(c, e)[0]);
      assert UseOf(c, e) == [UseOf(c, e)[0]];
    }
  }

  /** The budget is the outcome of its uses, all permitted, and no payload byte escapes it. */
  lemma {:induction false} BudgetFollowsUses(rate: real, now: real, log: seq<Entry>)
    requires History(New(rate, now), log)
    ensures var uses := Uses(New(rate, now), log);
            && After(New(rate, now), log).bucket == Run(Full(rate, now), uses)
            && Legal(Full(rate, now), uses)
            && Charged(uses) == PayloadBytes(Frames(log))
  {
    if log != [] {
      var c, past, e := New(rate, now), log[..|log| - 1], log[|log| - 1];
      BudgetFollowsUses(rate, now, past);
      if e.Out? { OneMoreFrame(Frames(past), e.f); } else { assert Frames(log) == Frames(past); }
      BudgetStep(Full(rate, now), Uses(c, past), After(c, past), e);
    }
  }

  /** The frame a write first failed in, if any. */
  function Torn(log: seq<Entry>): seq<Frame> {
    if log == [] then []
    else if Torn(log[..|log| - 1]) == [] && log[|log| - 1].Fail? then [log[|log| - 1].f]
    else Torn(log[..|log| - 1])
  }

  lemma {:induction false} FramesAreLines(c: Connection, log: seq<Entry>)
    requires History(c, log)
    ensures |Torn(log)| <= 1 && forall f :: f in Frames(log) + Torn(log) ==> OneLine(f)
  {
    if log != [] { FramesAreLines(c, log[..|log| - 1]); }
  }

  lemma {:induction false} WireHoldsFrames(rate: real, now: real, log: seq<Entry>)
    requires History(New(rate, now), log)
    ensures var c := After(New(rate, now), log);
            && (c.broken <==> Torn(log) != [])
            && if c.broken then Print(Frames(log)) <= c.wire <= Print(Frames(log)) + Printed(Torn(log)[0])
               else c.wire == Print(Frames(log))
  {
    if log != [] {
      var past, e := log[..|log| - 1], log[|log| - 1];
      WireHoldsFrames(rate, now, past);
      WireStep(After(New(rate, now), past), e);
      if e.Out? { OneMoreFrame(Frames(past), e.f); } else { assert Frames(log) == Frames(past); }
    }
  }

  lemma WireStep(c: Connection, e: Entry)
    requires Possible(c, e)
    ensures e.Out? ==> Step(c, e).wire == c.wire + Printed(e.f) && !c.broken && !Step(c, e).broken
    ensures e.Fail? ==> c.wire <= Step(c, e).wire <= c.wire + Printed(e.f) && Step(c, e).broken
    ensures e.Fail? && c.broken ==> Step(c, e).wire == c.wire
    ensures e.Ask? ==> Step(c, e).wire == c.wire && Step(c, e).broken == c.broken
  {
  }

  /** On the wire are the frames sent whole and, once a write has failed, at most part of one more. */
  lemma WireIsCut(rate: real, now: real, log: seq<Entry>)
    requires History(New(rate, now), log)
    ensures Print(Frames(log)) <= After(New(rate, now), log).wire <= Print(Frames(log) + Torn(log))
  {
    WireHoldsFrames(rate, now, log);
    FramesAreLines(New(rate, now), log);
    if Torn(log) == [] {
      assert Frames(log) + Torn(log) == Frames(log);
    } else {
      OneMoreFrame(Frames(log), Torn(log)[0]);
      assert Torn(log) == [Torn(log)[0]];
    }
  }

  /**
   * End to end: however the transport chunks what was written, the browser's parser is handed only
   * payloads that were sent, in order, the last perhaps from a write reported as failed; and once
   * everything written has arrived it has every message the counter counted.
   */
  lemma BrowserReceivesMessages(rate: real, now: real, log: seq<Entry>, chunks: seq<string>)
    requires History(New(rate, now), log)
    requires Flatten(chunks) <= After(New(rate, now), log).wire
    ensures var c, got := After(New(rate, now), log), Received(Flatten(chunks));
            && got <= Payloads(Frames(log) + Torn(log))
            && (Flatten(chunks) == c.wire ==> Payloads(Frames(log)) <= got && c.messages <= |got|)
            && (Flatten(chunks) == c.wire && !c.broken ==> got == Payloads(Frames(log)))
  {
    WireHoldsFrames(rate, now, log);
    WireIsCut(rate, now, log);
    FramesAreLines(New(rate, now), log);
    CountersAreExact(rate, now, log);
    WholeFramesArrive(Frames(log), Torn(log), chunks);
    if Torn(log) == [] { assert Frames(log) + Torn(log) == Frames(log); }
  }

  lemma WholeFramesArrive(whole: seq<Frame>, torn: seq<Frame>, chunks: seq<string>)
    requires forall f :: f in whole + torn ==> OneLine(f)
    requires Flatten(chunks) <= Print(whole + torn)
    ensures Received(Flatten(chunks)) <= Payloads(whole + torn)
    ensures Print(whole) <= Flatten(chunks) ==> Payloads(whole) <= Received(Flatten(chunks))
    ensures Print(whole + torn) == Flatten(chunks) ==> Received(Flatten(chunks)) == Payloads(whole + torn)
  {
    RoundTripUnderChunking(whole + torn, chunks);
    OneLinePart(whole, torn);
    RoundTrip(whole);
    if Print(whole) <= Flatten(chunks) { ReceivedGrows(Print(whole), Flatten(chunks)); }
  }

  lemma OneLinePart(whole: seq<Frame>, torn: seq<Frame>)
    requires forall f :: f in whole + torn ==> OneLine(f)
    ensures forall f :: f in whole ==> OneLine(f)
  {
    assert forall f :: f in whole ==> f in whole + torn;
  }

  /** Bandwidth: in any stretch lasting `span` seconds, two seconds' worth and what trickles in meanwhile. */
  lemma AdmittedBandwidth(rate: real, now: real, log: seq<Entry>, past: seq<Use>, window: seq<Use>, later: seq<Use>,
                          from: real, span: real)
    requires rate > 0.0 && span >= 0.0 && History(New(rate, now), log)
    requires Uses(New(rate, now), log) == past + window + later && Timed(window, from, from + span)
    ensures AdmittedBytes(window) as real <= 2.0 * rate + span * rate
  {
    BudgetFollowsUses(rate, now, log);
    PastWasLegal(Full(rate, now), past + window, later);
    WindowBound(rate, now, past, window, from, span);
  }

  // ---- what is sent outside the budget ----

  /** The payloads sent without the budget being asked for them, in order. */
  function Unasked(log: seq<Entry>): seq<string> {
    if log == [] then []
    else Unasked(log[..|log| - 1]) + UnaskedOf(log[|log| - 1])
  }

  function UnaskedOf(e: Entry): seq<string> {
    if e.Out? && e.f.Data? && !e.admitted then [e.f.payload] else []
  }

  function Total(ps: seq<string>): nat {
    if ps == [] then 0 else Total(ps[..|ps| - 1]) + |ps[|ps| - 1]|
  }

  lemma {:induction false} HistoryAppend(c: Connection, past: seq<Entry>, log: seq<Entry>)
    ensures After(c, past + log) == After(After(c, past), log)
    ensures History(c, past + log) <==> History(c, past) && History(After(c, past), log)
  {
    if log == [] {
      assert past + log == past;
    } else {
      HistoryAppend(c, past, log[..|log| - 1]);
      assert (past + log)[..|past + log| - 1] == past + log[..|log| - 1];
    }
  }

  lemma OneMoreUses(c: Connection, log: seq<Entry>, e: Entry)
    ensures Uses(c, log + [e]) == Uses(c, log) + UseOf(After(c, log), e)
  {
    assert (log + [e])[..|log|] == log;
  }

  lemma UsesAppendOne(c: Connection, past: seq<Entry>, rest: seq<Entry>, e: Entry)
    requires Uses(c, past + rest) == Uses(c, past) + Uses(After(c, past), rest)
    ensures Uses(c, past + rest + [e]) == Uses(c, past) + Uses(After(c, past), rest + [e])
  {
    HistoryAppend(c, past, rest);
    OneMoreUses(c, past + rest, e);
    OneMoreUses(After(c, past), rest, e);
    Associative(Uses(c, past), Uses(After(c, past), rest), UseOf(After(After(c, past), rest), e));
  }

  lemma LastEntry(past: seq<Entry>, log: seq<Entry>)
    requires log != []
    ensures log[..|log| - 1] + [log[|log| - 1]] == log
    ensures past + log[..|log| - 1] + [log[|log| - 1]] == past + log
  {
  }

  lemma {:induction false} UsesAppend(c: Connection, past: seq<Entry>, log: seq<Entry>)
    ensures Uses(c, past + log) == Uses(c, past) + Uses(After(c, past), log)
  {
    if log == [] {
      assert past + log == past && Uses(c, past) + [] == Uses(c, past);
    } else {
      var rest, e := log[..|log| - 1], log[|log| - 1];
      UsesAppend(c, past, rest);
      UsesAppendOne(c, past, rest, e);
      LastEntry(past, log);
    }
  }

  function EntryBytes(e: Entry): nat { if e.Out? && e.f.Data? then |e.f.payload| else 0 }

  lemma FramesBytes(past: seq<Entry>, e: Entry)
    ensures PayloadBytes(Frames(past + [e])) == PayloadBytes(Frames(past)) + EntryBytes(e)
  {
    assert (past + [e])[..|past|] == past;
    if e.Out? { OneMoreFrame(Frames(past), e.f); } else { assert Frames(past) + [] == Frames(past); }
  }

  lemma UsesBytes(c: Connection, past: seq<Entry>, e: Entry)
    ensures AdmittedBytes(Uses(c, past + [e])) ==
            AdmittedBytes(Uses(c, past)) + if e.Out? && e.admitted then EntryBytes(e) else 0
  {
    assert (past + [e])[..|past|] == past;
    var use := UseOf(After(c, past), e);
    if use == [] {
      assert Uses(c, past) + [] == Uses(c, past);
    } else {
      assert use == [use[0]];
      OneMoreUse(c.bucket, Uses(c, past), use[0]);
    }
  }

  lemma TotalMore(ps: seq<string>, p: string)
    ensures Total(ps + [p]) == Total(ps) + |p|
  {
    assert (ps + [p])[..|ps|] == ps;
  }

  lemma UnaskedBytes(past: seq<Entry>, e: Entry)
    ensures Total(Unasked(past + [e])) == Total(Unasked(past)) + if e.Out? && !e.admitted then EntryBytes(e) else 0
  {
    assert (past + [e])[..|past|] == past;
    if UnaskedOf(e) == [] {
      assert Unasked(past) + [] == Unasked(past);
    } else {
      TotalMore(Unasked(past), e.f.payload);
    }
  }

  /** Every payload byte was either admitted or sent unasked. */
  lemma {:induction false} PayloadIsAdmittedOrUnasked(c: Connection, log: seq<Entry>)
    ensures PayloadBytes(Frames(log)) == AdmittedBytes(Uses(c, log)) + Total(Unasked(log))
  {
    if log != [] {
      var past, e := log[..|log| - 1], log[|log| - 1];
      assert past + [e] == log;
      PayloadIsAdmittedOrUnasked(c, past);
      FramesBytes(past, e);
      UsesBytes(c, past, e);
      UnaskedBytes(past, e);
    }
  }

  /**
   * Bandwidth of a connection: in any stretch of its history lasting `span` seconds, all the payload
   * sent is at most two seconds' worth, what trickles in meanwhile, and what was sent unasked.
   */
  lemma ConnectionBandwidth(rate: real, now: real, past: seq<Entry>, window: seq<Entry>, later: seq<Entry>,
                            from: real, span: real)
    requires rate > 0.0 && span >= 0.0 && History(New(rate, now), past + window + later)
    requires Timed(Uses(After(New(rate, now), past), window), from, from + span)
    ensures PayloadBytes(Frames(window)) as real <= 2.0 * rate + span * rate + Total(Unasked(window)) as real
  {
    var c := New(rate, now);
    HistoryAppend(c, past + window, later);
    UsesAppend(c, past, window);
    var uses := Uses(After(c, past), window);
    assert Uses(c, past) + uses + [] == Uses(c, past) + uses;
    AdmittedBandwidth(rate, now, past + window, Uses(c, past), uses, [], from, span);
    PayloadIsAdmittedOrUnasked(After(c, past), window);
  }
}
