/** The handler of one SSE connection, from its first byte until the client leaves or a write fails. */
module StreamHandler {
  import opened Wrappers
  import opened Sse
  import opened TokenBucket
  import opened StreamLog
  import opened StreamBatch
  import opened StreamClient
  import opened CacheWindow
  import K = KeyframeCache

  /** A stream's parameters: the cache's grid, the encoders, and how many slots a trail looks back. */
  datatype Stream = Stream(cfg: Config, encode: Encoder, notice: Notice, trail: int)

  /**
   * What wakes the handler: a tick at `at`, with the entries the cache then holds and the instants at
   * which the budget would be asked once and again; or the keepalive ticker.
   */
  datatype Moment = Tick(held: map<int, K.CacheEntry>, at: int, asked: real, again: real) | Quiet

  /** Instants never run backwards; `now` is when the connection opened. */
  function LastClock(now: real, ms: seq<Moment>): real {
    if ms == [] then now
    else if ms[|ms| - 1].Tick? then ms[|ms| - 1].again else LastClock(now, ms[..|ms| - 1])
  }

  predicate Clocked(now: real, ms: seq<Moment>) {
    ms == [] ||
    (Clocked(now, ms[..|ms| - 1]) &&
     (ms[|ms| - 1].Tick? ==> LastClock(now, ms[..|ms| - 1]) <= ms[|ms| - 1].asked <= ms[|ms| - 1].again))
  }

  /** The keyframe of the tick's slot, and the trail keyframes up to it when trails are wanted. */
  function KeyframeAt(s: Stream, m: Moment): Option<K.Keyframe>
    requires s.cfg.Valid() && m.Tick?
  {
    K.Lookup(s.cfg, m.held, m.at)
  }

  function TrailAt(s: Stream, m: Moment): Option<seq<K.Keyframe>>
    requires s.cfg.Valid() && m.Tick?
  {
    if s.trail > 0 then Some(K.Recent(s.cfg, m.held, m.at, s.trail)) else None
  }

  function ReplyTo(s: Stream, b: Bucket, m: Moment): Reply
    requires s.cfg.Valid()
  {
    if m.Quiet? then Reply([Keepalive], b)
    else TickOf(s.encode, s.notice, b, KeyframeAt(s, m), TrailAt(s, m), m.asked, m.again)
  }

  /** Moment by moment, what a connection that starts so and stays unbroken has sent, and its budget then. */
  function Played(s: Stream, start: Reply, ms: seq<Moment>): Reply
    requires s.cfg.Valid()
  {
    if ms == [] then start
    else
      var before := Played(s, start, ms[..|ms| - 1]);
      var reply := ReplyTo(s, before.bucket, ms[|ms| - 1]);
      Reply(before.frames + reply.frames, reply.bucket)
  }

  lemma PlayedNext(s: Stream, start: Reply, ms: seq<Moment>, i: nat)
    requires s.cfg.Valid() && i < |ms|
    ensures var before := Played(s, start, ms[..i]);
            var reply := ReplyTo(s, before.bucket, ms[i]);
            Played(s, start, ms[..i + 1]) == Reply(before.frames + reply.frames, reply.bucket)
  {
    assert ms[..i + 1][..i] == ms[..i];
  }

  lemma {:induction false} PlayedGrows(s: Stream, start: Reply, ms: seq<Moment>, i: nat)
    requires s.cfg.Valid() && i <= |ms|
    ensures Played(s, start, ms[..i]).frames <= Played(s, start, ms).frames
    decreases |ms| - i
  {
    if i == |ms| {
      assert ms[..i] == ms;
    } else {
      PlayedNext(s, start, ms, i);
      PlayedGrows(s, start, ms, i + 1);
    }
  }

  // ---- what a reply is ----

  /** The bytes a budget covers at an instant, and everything when there is no limit. */
  predicate Covers(b: Bucket, at: real, n: nat) {
    b.rate <= 0.0 || (n as real <= b.maxTokens && n as real <= b.tokens + (at - b.lastRefill) * b.rate)
  }

  /**
   * A tick whose slot is cached, and whose batches can be encoded, is answered with exactly one message:
   * the full batch when the budget covers it at the first asking, else the bare batch when the budget
   * covers that at the second, else a notice for that keyframe. Its trail is the cached part of the last
   * slots up to the tick.
   */
  lemma TickIsAnswered(s: Stream, b: Bucket, m: Moment, k: K.Keyframe, full: string, bare: string)
    requires s.cfg.Valid() && m.Tick? && b.lastRefill <= m.asked <= m.again
    requires s.cfg.Round(m.at) in m.held && k == m.held[s.cfg.Round(m.at)].keyframe
    requires var trail := if s.trail > 0 then K.Recent(s.cfg, m.held, m.at, s.trail) else [];
             s.encode(BatchOf(k, trail)) == Some(full) && s.encode(BatchOf(k, [])) == Some(bare)
    ensures ReplyTo(s, b, m).frames ==
            [Data(if Covers(b, m.asked, |full|) then full
                  else if Covers(b, m.again, |bare|) then bare
                  else s.notice(k.timestamp))]
  {
    FitsIff(b, m.asked, |full|);
    FitsIff(b, m.again, |bare|);
  }

  /** A tick whose slot is not cached sends nothing and leaves the budget alone. */
  lemma MissIsSilent(s: Stream, b: Bucket, m: Moment)
    requires s.cfg.Valid() && m.Tick? && s.cfg.Round(m.at) !in m.held
    ensures ReplyTo(s, b, m) == Reply([], b)
  {
  }

  /** Ticks whose slot is cached. */
  function Hits(s: Stream, ms: seq<Moment>): nat
    requires s.cfg.Valid()
  {
    if ms == [] then 0
    else Hits(s, ms[..|ms| - 1]) +
         if ms[|ms| - 1].Tick? && s.cfg.Round(ms[|ms| - 1].at) in ms[|ms| - 1].held then 1 else 0
  }

  ghost predicate AlwaysEncodes(encode: Encoder) { forall batch :: encode(batch).Some? }

  /** When batches always encode, no cached keyframe goes unanswered: one message to every hit, and no other. */
  lemma {:induction false} EveryHitIsAnswered(s: Stream, start: Reply, ms: seq<Moment>)
    requires s.cfg.Valid() && AlwaysEncodes(s.encode)
    ensures |Payloads(Played(s, start, ms).frames)| == |Payloads(start.frames)| + Hits(s, ms)
  {
    if ms != [] {
      var past, m := ms[..|ms| - 1], ms[|ms| - 1];
      EveryHitIsAnswered(s, start, past);
      var before := Played(s, start, past);
      var reply := ReplyTo(s, before.bucket, m).frames;
      OneReply(s, before.bucket, m);
      if reply == [] {
        assert before.frames + [] == before.frames;
      } else {
        OneMoreFrame(before.frames, reply[0]);
        assert reply == [reply[0]];
      }
    }
  }

  lemma OneReply(s: Stream, b: Bucket, m: Moment)
    requires s.cfg.Valid() && AlwaysEncodes(s.encode)
    ensures var reply := ReplyTo(s, b, m).frames;
            if m.Quiet? then reply == [Keepalive]
            else if s.cfg.Round(m.at) in m.held then |reply| == 1 && reply[0].Data? else reply == []
  {
  }

  // ---- the handler ----

  /** The retry hint and, when there is a dataset, its metadata, which the budget is charged for unasked. */
  function Opened(rate: real, now: real, retry: string, metadata: Option<string>): Reply {
    Reply(Opening(retry, metadata),
          if metadata.Some? then Spend(Full(rate, now), |metadata.value|) else Full(rate, now))
  }

  /** The retry hint comes first, and the metadata is the first message, whatever follows. */
  lemma MetadataComesFirst(s: Stream, rate: real, now: real, retry: string, metadata: Option<string>, ms: seq<Moment>)
    requires s.cfg.Valid()
    ensures var sent := Played(s, Opened(rate, now, retry, metadata), ms).frames;
            && sent != [] && sent[0] == Retry(retry)
            && (metadata.Some? ==> |sent| > 1 && sent[1] == Data(metadata.value))
  {
    var start := Opened(rate, now, retry, metadata);
    PlayedGrows(s, start, ms, 0);
    assert ms[..0] == [];
  }

  /** Whenever batches encode, a connection carries its metadata and one message to every cached tick. */
  lemma MessagesAreHits(s: Stream, rate: real, now: real, retry: string, metadata: Option<string>, ms: seq<Moment>)
    requires s.cfg.Valid() && AlwaysEncodes(s.encode)
    ensures |Payloads(Played(s, Opened(rate, now, retry, metadata), ms).frames)| ==
            (if metadata.Some? then 1 else 0) + Hits(s, ms)
  {
    EveryHitIsAnswered(s, Opened(rate, now, retry, metadata), ms);
    OneMoreFrame([], Retry(retry));
    assert [] + [Retry(retry)] == [Retry(retry)];
    if metadata.Some? { OneMoreFrame([Retry(retry)], Data(metadata.value)); }
  }

  /** What the handler has sent: all of what is prescribed so far, or what went out before a write failed. */
  ghost predicate Faithful(c: Client, prescribed: Reply)
    reads c
  {
    && c.Valid() && Frames(c.log) <= prescribed.frames
    && (!c.broken ==> Frames(c.log) == prescribed.frames && c.State().bucket == prescribed.bucket)
  }

  /** A tick whose keyframe and trail have been read. */
  method Answer(c: Client, s: Stream, m: Moment, kf: Option<K.Keyframe>, trail: Option<seq<K.Keyframe>>,
                ghost sofar: Reply, ghost metadata: Option<string>)
    returns (alive: bool)
    requires s.cfg.Valid() && m.Tick? && Faithful(c, sofar) && c.lastRefill <= m.asked <= m.again
    requires kf == KeyframeAt(s, m) && trail == TrailAt(s, m)
    requires c.rate > 0.0 ==> AllExempt(Unasked(c.log), metadata, s.notice)
    modifies c
    ensures var reply := ReplyTo(s, sofar.bucket, m); Faithful(c, Reply(sofar.frames + reply.frames, reply.bucket))
    ensures c.rate == old(c.rate) && c.lastRefill <= m.again && (!alive ==> c.broken)
    ensures c.rate > 0.0 ==> AllExempt(Unasked(c.log), metadata, s.notice)
  {
    alive := c.Tick(s.encode, s.notice, kf, trail, m.asked, m.again);
    if kf.Some? && c.rate > 0.0 {
      OneMoreExempt(Unasked(old(c.log)), s.notice(kf.value.timestamp), metadata, s.notice);
    }
  }

  /** A tick against the live cache: what it answers is what the moment with the cache's entries prescribes. */
  method AnswerFromCache(c: Client, cache: K.KeyframeCache, s: Stream, at: int, asked: real, again: real,
                         ghost sofar: Reply, ghost metadata: Option<string>)
    returns (alive: bool)
    requires cache.Valid() && cache.cfg == s.cfg && Faithful(c, sofar) && c.lastRefill <= asked <= again
    requires c.rate > 0.0 ==> AllExempt(Unasked(c.log), metadata, s.notice)
    modifies c
    ensures var reply := ReplyTo(s, sofar.bucket, Tick(cache.entries, at, asked, again));
            Faithful(c, Reply(sofar.frames + reply.frames, reply.bucket))
    ensures c.rate == old(c.rate) && c.lastRefill <= again && (!alive ==> c.broken)
    ensures c.rate > 0.0 ==> AllExempt(Unasked(c.log), metadata, s.notice)
  {
    var kf := cache.Get(at);
    var trail: Option<seq<K.Keyframe>> := None;
    if s.trail > 0 {
      var recent := cache.GetRecent(at, s.trail);
      trail := Some(recent);
    }
    alive := Answer(c, s, Tick(cache.entries, at, asked, again), kf, trail, sofar, metadata);
  }

  /** One moment of an open connection. */
  method Handle(c: Client, s: Stream, m: Moment, ghost sofar: Reply, ghost metadata: Option<string>)
    returns (alive: bool)
    requires s.cfg.Valid() && Faithful(c, sofar)
    requires m.Tick? ==> c.lastRefill <= m.asked <= m.again
    requires c.rate > 0.0 ==> AllExempt(Unasked(c.log), metadata, s.notice)
    modifies c
    ensures var reply := ReplyTo(s, sofar.bucket, m); Faithful(c, Reply(sofar.frames + reply.frames, reply.bucket))
    ensures c.rate == old(c.rate) && (!alive ==> c.broken)
    ensures c.lastRefill <= if m.Tick? then m.again else old(c.lastRefill)
    ensures c.rate > 0.0 ==> AllExempt(Unasked(c.log), metadata, s.notice)
  {
    if m.Tick? {
      alive := Answer(c, s, m, KeyframeAt(s, m), TrailAt(s, m), sofar, metadata);
    } else {
      alive := c.SendKeepalive();
    }
  }

  /** The retry hint, whose write is not checked, and the metadata when there is a dataset. */
  method Open(bytesPerSec: int, now: real, retry: string, metadata: Option<string>, ghost notice: Notice)
    returns (c: Client, alive: bool)
    requires NL !in retry && (metadata.Some? ==> NL !in metadata.value)
    ensures fresh(c) && c.rate == bytesPerSec as real && c.lastRefill == now && (!alive ==> c.broken)
    ensures Faithful(c, Opened(bytesPerSec as real, now, retry, metadata))
    ensures AllExempt(Unasked(c.log), metadata, notice)
  {
    c := new Client(bytesPerSec, now);
    alive := true;
    c.SendRetry(retry);
    assert Frames([]) + [Retry(retry)] == [Retry(retry)];
    assert metadata.None? ==> Opening(retry, metadata) == [Retry(retry)];
    if metadata.Some? {
      OneMoreExempt([], metadata.value, metadata, notice);
      alive := c.SendRaw(metadata.value, false);
    }
  }

  /** A connection that broke on the way has sent no more than the whole prescribes. */
  lemma FaithfulToAll(c: Client, s: Stream, start: Reply, ms: seq<Moment>, i: nat)
    requires s.cfg.Valid() && i <= |ms| && Faithful(c, Played(s, start, ms[..i])) && (i == |ms| || c.broken)
    ensures Faithful(c, Played(s, start, ms))
  {
    PlayedGrows(s, start, ms, i);
    if i == |ms| { assert ms[..i] == ms; }
  }

  /** The handler's loop: every moment in turn, until a write fails. */
  method Loop(c: Client, s: Stream, ms: seq<Moment>, ghost now: real, ghost start: Reply,
              ghost metadata: Option<string>)
    requires s.cfg.Valid() && Clocked(now, ms) && Faithful(c, start) && c.lastRefill <= now
    requires c.rate > 0.0 ==> AllExempt(Unasked(c.log), metadata, s.notice)
    modifies c
    ensures Faithful(c, Played(s, start, ms)) && c.rate == old(c.rate)
    ensures c.rate > 0.0 ==> AllExempt(Unasked(c.log), metadata, s.notice)
  {
    var i, alive := 0, true;
    while i < |ms| && alive
      invariant 0 <= i <= |ms| && c.rate == old(c.rate) && (!alive ==> c.broken)
      invariant c.lastRefill <= LastClock(now, ms[..i])
      invariant Faithful(c, Played(s, start, ms[..i]))
      invariant c.rate > 0.0 ==> AllExempt(Unasked(c.log), metadata, s.notice)
    {
      ClockedAt(now, ms, i);
      PlayedNext(s, start, ms, i);
      alive := Handle(c, s, ms[i], Played(s, start, ms[..i]), metadata);
      i := i + 1;
    }
    FaithfulToAll(c, s, start, ms, i);
  }

  /**
   * A whole connection. Unbroken, it has sent the opening and then, moment by moment, exactly what each
   * prescribes; if a write failed, what went out before is a prefix of that. With a limit, everything
   * sent unasked is exempt, so ConnectionBandwidth bounds its batches.
   */
  method Serve(bytesPerSec: int, now: real, retry: string, metadata: Option<string>, s: Stream, ms: seq<Moment>)
    returns (c: Client)
    requires s.cfg.Valid() && NL !in retry && (metadata.Some? ==> NL !in metadata.value) && Clocked(now, ms)
    ensures fresh(c) && c.rate == bytesPerSec as real
    ensures Faithful(c, Played(s, Opened(bytesPerSec as real, now, retry, metadata), ms))
    ensures bytesPerSec > 0 ==> AllExempt(Unasked(c.log), metadata, s.notice)
  {
    var alive;
    c, alive := Open(bytesPerSec, now, retry, metadata, s.notice);
    ghost var start := Opened(bytesPerSec as real, now, retry, metadata);
    if alive {
      Loop(c, s, ms, now, start, metadata);
    } else {
      FaithfulToAll(c, s, start, ms, 0);
    }
  }

  lemma {:induction false} ClockedAt(now: real, ms: seq<Moment>, i: nat)
    requires Clocked(now, ms) && i < |ms|
    ensures ms[i].Tick? ==> LastClock(now, ms[..i]) <= ms[i].asked <= ms[i].again
    ensures LastClock(now, ms[..i + 1]) == if ms[i].Tick? then ms[i].again else LastClock(now, ms[..i])
  {
    assert ms[..i + 1][..i] == ms[..i];
    if i < |ms| - 1 {
      ClockedAt(now, ms[..|ms| - 1], i);
      assert ms[..|ms| - 1][..i] == ms[..i];
    }
  }
}
