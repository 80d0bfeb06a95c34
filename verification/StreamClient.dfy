/** The writing end of one SSE connection: its counters, its budget, and what it sends on a tick. */
module StreamClient {
  import opened Wrappers
  import opened Sse
  import opened TokenBucket
  import opened StreamLog
  import opened StreamBatch
  import opened KeyframeCache

  /** JSON encoders may fail, but what they produce has its line feeds escaped. */
  type Encoder = f: BatchMessage -> Option<string> | forall m :: f(m).Some? ==> NL !in f(m).value
    witness (_: BatchMessage) => None
  type Notice = f: int -> string | forall t :: NL !in f(t) witness (_: int) => ""

  /** Whether `n` bytes asked about at `at` are within the budget; no limit means they always are. */
  predicate Fits(b: Bucket, at: real, n: nat) {
    b.rate <= 0.0 || n as real <= Refill(b, at).tokens
  }

  /** A batch is admitted exactly when the burst allows it and so do the tokens left and those regained since. */
  lemma FitsIff(b: Bucket, at: real, n: nat)
    ensures Fits(b, at, n) <==>
            b.rate <= 0.0 ||
            (n as real <= b.maxTokens && n as real <= b.tokens + (at - b.lastRefill) * b.rate)
  {
  }

  lemma FitsAskedTwice(b: Bucket, at: real, later: real, n: nat)
    requires b.rate > 0.0 && b.lastRefill <= at <= later
    ensures Fits(Refill(b, at), later, n) == Fits(b, later, n)
  {
    RefillIsMemoryless(b, at, later);
  }

  /** One message more than before, and how it was paid for. */
  predicate Sent(before: seq<Entry>, log: seq<Entry>, data: string, admitted: bool) {
    && log != [] && log[|log| - 1] == Out(Data(data), admitted)
    && Frames(log) == Frames(before) + [Data(data)]
    && Unasked(log) == Unasked(before) + if admitted then [] else [data]
  }

  /** What one moment of a connection puts on the wire, and the budget it leaves. */
  datatype Reply = Reply(frames: seq<Frame>, bucket: Bucket)

  function Asking(b: Bucket, at: real): Bucket { if b.rate > 0.0 then Refill(b, at) else b }

  /** The first of two encodings that fits, else a notice; nothing when there is no second encoding. */
  function OfferOf(b: Bucket, full: string, bare: Option<string>, note: string, asked: real, again: real): Reply {
    var once, twice := Asking(b, asked), Asking(Asking(b, asked), again);
    if Fits(b, asked, |full|) then Reply([Data(full)], Spend(once, |full|))
    else if bare.None? then Reply([], once)
    else if Fits(b, again, |bare.value|) then Reply([Data(bare.value)], Spend(twice, |bare.value|))
    else Reply([Data(note)], Spend(twice, |note|))
  }

  function TickOf(encode: Encoder, notice: Notice, b: Bucket, kf: Option<Keyframe>, trail: Option<seq<Keyframe>>,
                  asked: real, again: real): Reply
  {
    if !CanEncode(encode, kf, trail) then Reply([], b)
    else
      var full, bare := encode(BatchOf(kf.value, TrailOf(trail))).value, encode(BatchOf(kf.value, []));
      OfferOf(b, full, bare, notice(kf.value.timestamp), asked, again)
  }

  class Client {
    var wire: string
    var broken: bool
    var messagesSent: nat
    var bytesSent: int
    var tokens: real
    var maxTokens: real
    var rate: real
    var lastRefill: real
    ghost var log: seq<Entry>
    ghost const start: real

    ghost function State(): Connection
      reads this
    {
      Connection(wire, broken, messagesSent, bytesSent, Bucket(tokens, maxTokens, rate, lastRefill))
    }

    ghost predicate Valid()
      reads this
    {
      State() == After(New(rate, start), log) && History(New(rate, start), log)
    }

    constructor (bytesPerSec: int, now: real)
      ensures Valid() && rate == bytesPerSec as real && start == now == lastRefill && log == []
    {
      rate := bytesPerSec as real;
      maxTokens := bytesPerSec as real * 2.0;
      tokens := bytesPerSec as real * 2.0;
      lastRefill, start := now, now;
      wire, broken, messagesSent, bytesSent, log := "", false, 0, 0, [];
    }

    ghost method Record(e: Entry)
      requires History(New(rate, start), log) && Possible(After(New(rate, start), log), e)
      requires State() == Step(After(New(rate, start), log), e)
      modifies `log
      ensures Valid() && log == old(log) + [e]
      ensures Frames(log) == if e.Out? then Frames(old(log)) + [e.f] else Frames(old(log))
      ensures Unasked(log) == Unasked(old(log)) + UnaskedOf(e)
    {
      OneMoreEntry(New(rate, start), log, e);
      assert (log + [e])[..|log|] == log;
      log := log + [e];
    }

    /** All of `s`, or part of it and nothing ever again. */
    method Write(s: string) returns (ok: bool, ghost part: string)
      modifies `wire, `broken
      ensures wire == old(wire) + part && part <= s && ok == !broken
      ensures if ok then !old(broken) && part == s else old(broken) ==> part == ""
    {
      var fails: bool, cut: nat := *, *;
      part := if broken || |s| < cut then "" else s[..cut];
      if broken || fails {
        if !broken && cut <= |s| { wire := wire + s[..cut]; }
        broken, ok := true, false;
      } else {
        wire, ok, part := wire + s, true, s;
      }
    }

    method WriteFrame(data: string) returns (ok: bool, ghost part: string)
      modifies `wire, `broken
      ensures wire == old(wire) + part && part <= Printed(Data(data)) && ok == !broken
      ensures if ok then !old(broken) && part == Printed(Data(data)) else old(broken) ==> part == ""
    {
      ok, part := Write(DATA_PREFIX);
      if ok {
        ghost var more;
        ok, more := Write(data);
        part := part + more;
        if ok {
          ok, more := Write(BREAK);
          part := part + more;
        }
      }
    }

    /** The retry hint: counted nowhere, and its write is not checked. */
    method SendRetry(millis: string)
      requires Valid() && NL !in millis
      modifies `wire, `broken, `log
      ensures Valid() && old(log) <= log && Unasked(log) == Unasked(old(log))
      ensures Frames(log) == if broken then Frames(old(log)) else Frames(old(log)) + [Retry(millis)]
    {
      var ok, part := Write("retry: " + millis + BREAK);
      Record(if ok then Out(Retry(millis), false) else Fail(Retry(millis), part));
    }

    /** One message; its payload is charged once it is out, whether or not the budget was asked. */
    method SendRaw(data: string, ghost admitted: bool) returns (ok: bool)
      requires Valid() && NL !in data && (admitted ==> |data| as real <= tokens)
      modifies `wire, `broken, `messagesSent, `bytesSent, `tokens, `log
      ensures Valid() && ok == !broken && (old(broken) ==> broken)
      ensures old(log) <= log && rate == old(rate)
      ensures ok ==> Sent(old(log), log, data, admitted) && State().bucket == Spend(old(State()).bucket, |data|)
      ensures !ok ==> Frames(log) == Frames(old(log)) && Unasked(log) == Unasked(old(log))
    {
      ghost var part;
      ok, part := WriteFrame(data);
      if ok {
        tokens := tokens - |data| as real;
        messagesSent := messagesSent + 1;
        bytesSent := bytesSent + (|DATA_PREFIX| + |data| + |BREAK|);
        Record(Out(Data(data), admitted));
      } else {
        Record(Fail(Data(data), part));
      }
    }

    /** A comment line keeps the connection alive and costs the budget nothing. */
    method SendKeepalive() returns (ok: bool)
      requires Valid()
      modifies `wire, `broken, `bytesSent, `log
      ensures Valid() && ok == !broken && (old(broken) ==> broken)
      ensures old(log) <= log && Unasked(log) == Unasked(old(log))
      ensures Frames(log) == if ok then Frames(old(log)) + [Keepalive] else Frames(old(log))
    {
      ghost var part;
      ok, part := Write(":" + BREAK);
      if ok {
        bytesSent := bytesSent + 3;
        Record(Out(Keepalive, false));
      } else {
        Record(Fail(Keepalive, part));
      }
    }

    method RefillNow(now: real)
      modifies `tokens, `lastRefill
      ensures lastRefill == now && tokens == Refill(old(State()).bucket, now).tokens
    {
      var elapsed := now - lastRefill;
      lastRefill := now;
      tokens := tokens + elapsed * rate;
      if tokens > maxTokens { tokens := maxTokens; }
    }

    /** With a limit, asking also refills. */
    method HasBudget(n: nat, now: real) returns (fits: bool)
      requires Valid() && lastRefill <= now
      modifies `tokens, `lastRefill, `log
      ensures Valid() && fits == Fits(old(State()).bucket, now, n)
      ensures old(log) <= log && (rate <= 0.0 ==> log == old(log))
      ensures Frames(log) == Frames(old(log)) && Unasked(log) == Unasked(old(log))
      ensures State().bucket == (if rate > 0.0 then Refill(old(State()).bucket, now) else old(State()).bucket)
    {
      if rate <= 0.0 { return true; }
      RefillNow(now);
      Record(Ask(now));
      fits := tokens >= n as real;
    }

    /**
     * Sends the first of two encodings that fits the budget when it is asked, and a notice if neither
     * does; nothing when it has to fall back on a second encoding there is not.
     */
    method Offer(full: string, bare: Option<string>, note: string, asked: real, again: real) returns (alive: bool)
      requires Valid() && lastRefill <= asked <= again
      requires NL !in full && (bare.Some? ==> NL !in bare.value) && NL !in note
      modifies this
      ensures Valid() && rate == old(rate) && lastRefill <= again && (!alive || old(broken) ==> broken)
      ensures old(log) <= log && Frames(old(log)) <= Frames(log)
      ensures !alive || old(broken) ==> Frames(log) == Frames(old(log))
      ensures alive ==>
                var reply := OfferOf(old(State()).bucket, full, bare, note, asked, again);
                Frames(log) == Frames(old(log)) + reply.frames && State().bucket == reply.bucket
      ensures rate > 0.0 ==> Unasked(log) == Unasked(old(log)) || Unasked(log) == Unasked(old(log)) + [note]
      ensures alive ==>
                var b := old(State()).bucket;
                if Fits(b, asked, |full|) then Sent(old(log), log, full, rate > 0.0)
                else if bare.None? then Frames(log) == Frames(old(log))
                else if Fits(b, again, |bare.value|) then Sent(old(log), log, bare.value, true)
                else Sent(old(log), log, note, false)
    {
      var fits := HasBudget(|full|, asked);
      if fits {
        alive := SendRaw(full, rate > 0.0);
        return;
      }
      if bare.None? { return true; }
      FitsAskedTwice(old(State()).bucket, asked, again, |bare.value|);
      fits := HasBudget(|bare.value|, again);
      if fits {
        alive := SendRaw(bare.value, true);
      } else {
        alive := SendRaw(note, false);
      }
    }

    /**
     * One tick at which the cache holds `kf` and, when trails are wanted, `trail`. The first of the full
     * batch and the bare one that fits the budget when asked goes out, and a notice if neither does;
     * nothing goes out when there is no keyframe or it cannot be encoded.
     */
    method Tick(encode: Encoder, notice: Notice, kf: Option<Keyframe>, trail: Option<seq<Keyframe>>,
                asked: real, again: real)
      returns (alive: bool)
      requires Valid() && lastRefill <= asked <= again
      modifies this
      ensures Valid() && rate == old(rate) && lastRefill <= again && (!alive || old(broken) ==> broken)
      ensures old(log) <= log && Frames(old(log)) <= Frames(log)
      ensures rate > 0.0 ==>
                Unasked(log) == Unasked(old(log)) ||
                (kf.Some? && Unasked(log) == Unasked(old(log)) + [notice(kf.value.timestamp)])
      ensures !alive || old(broken) || !CanEncode(encode, kf, trail) ==> Frames(log) == Frames(old(log))
      ensures alive ==>
                var reply := TickOf(encode, notice, old(State()).bucket, kf, trail, asked, again);
                Frames(log) == Frames(old(log)) + reply.frames && State().bucket == reply.bucket
      ensures alive && CanEncode(encode, kf, trail) ==>
                var b, full := old(State()).bucket, encode(BatchOf(kf.value, TrailOf(trail))).value;
                var bare := encode(BatchOf(kf.value, []));
                if Fits(b, asked, |full|) then Sent(old(log), log, full, rate > 0.0)
                else if bare.None? then Frames(log) == Frames(old(log))
                else if Fits(b, again, |bare.value|) then Sent(old(log), log, bare.value, true)
                else Sent(old(log), log, notice(kf.value.timestamp), false)
    {
      if kf.None? { return true; }
      var batch := BuildBatch(kf.value, TrailOf(trail));
      var full := encode(batch);
      if full.None? { return true; }
      var bare := full;
      if trail.Some? {
        batch := BuildBatch(kf.value, []);
        bare := encode(batch);
      }
      alive := Offer(full.value, bare, notice(kf.value.timestamp), asked, again);
    }
  }

  function TrailOf(trail: Option<seq<Keyframe>>): seq<Keyframe> {
    if trail.Some? then trail.value else []
  }

  predicate CanEncode(encode: Encoder, kf: Option<Keyframe>, trail: Option<seq<Keyframe>>) {
    kf.Some? && encode(BatchOf(kf.value, TrailOf(trail))).Some?
  }

  /** The metadata and the skip notices are sent whatever the budget holds; batches never are. */
  ghost predicate Exempt(p: string, metadata: Option<string>, notice: Notice) {
    metadata == Some(p) || exists t :: notice(t) == p
  }

  ghost predicate AllExempt(ps: seq<string>, metadata: Option<string>, notice: Notice) {
    ps == [] || (AllExempt(ps[..|ps| - 1], metadata, notice) && Exempt(ps[|ps| - 1], metadata, notice))
  }

  lemma OneMoreExempt(ps: seq<string>, p: string, metadata: Option<string>, notice: Notice)
    requires AllExempt(ps, metadata, notice) && Exempt(p, metadata, notice)
    ensures AllExempt(ps + [p], metadata, notice)
  {
    assert (ps + [p])[..|ps|] == ps;
  }

  function Opening(retry: string, metadata: Option<string>): seq<Frame> {
    [Retry(retry)] + if metadata.Some? then [Data(metadata.value)] else []
  }
}
