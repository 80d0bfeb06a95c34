/** Reading three-line element sets out of text that may hold blank lines and noise. */
module TleParser {
  import opened Wrappers
  import opened Seqs
  import opened Tle

  /** The two numeric fields, trimmed and decoded, and the trimming of a name. */
  datatype Decoder = Decoder(noradId: string -> Option<int>, epoch: string -> Option<int>, name: string -> string)

  // ---- lines ----

  function TrimRight(line: string): string {
    if line != "" && line[|line| - 1] in "\r\n " then TrimRight(line[..|line| - 1]) else line
  }

  function NonBlank(line: string): seq<string> {
    if TrimRight(line) == "" then [] else [TrimRight(line)]
  }

  function Clean(raw: seq<string>): seq<string> { FlatMap(NonBlank, raw) }

  // ---- triples ----

  predicate IsTriple(lines: seq<string>, i: nat) {
    i + 2 < |lines| && "1 " <= lines[i + 1] && "2 " <= lines[i + 2]
  }

  /** Where the reader, resynchronising one line at a time, takes a triple from `i` on. */
  function Starts(lines: seq<string>, i: nat): seq<nat>
    decreases |lines| - i
  {
    if i + 2 >= |lines| then []
    else if IsTriple(lines, i) then [i] + Starts(lines, i + 3)
    else Starts(lines, i + 1)
  }

  predicate AllTriples(lines: seq<string>, ps: seq<nat>) {
    ps == [] || (IsTriple(lines, ps[0]) && AllTriples(lines, ps[1..]))
  }

  /** A triple whose fields do not decode contributes nothing. */
  function EntryOf(d: Decoder, name: string, line1: string, line2: string): seq<Entry> {
    if |line1| < 32 then []
    else match (d.noradId(line1[2..7]), d.epoch(line1[18..32]))
         case (Some(id), Some(epoch)) => [Entry(id, d.name(name), epoch, line1, line2)]
         case _ => []
  }

  function Entries(d: Decoder, lines: seq<string>, ps: seq<nat>): seq<Entry>
    requires AllTriples(lines, ps)
  {
    if ps == [] then []
    else EntryOf(d, lines[ps[0]], lines[ps[0] + 1], lines[ps[0] + 2]) + Entries(d, lines, ps[1..])
  }

  /** A recognised triple whose first line is too short to hold an identifier. */
  predicate Cut(lines: seq<string>, ps: seq<nat>)
    requires AllTriples(lines, ps)
  {
    ps != [] && (|lines[ps[0] + 1]| < 7 || Cut(lines, ps[1..]))
  }

  lemma {:induction false} StartsAreTriples(lines: seq<string>, i: nat)
    ensures AllTriples(lines, Starts(lines, i))
    decreases |lines| - i
  {
    if i + 2 < |lines| {
      if IsTriple(lines, i) {
        StartsAreTriples(lines, i + 3);
        assert Starts(lines, i)[1..] == Starts(lines, i + 3);
      } else {
        StartsAreTriples(lines, i + 1);
      }
    }
  }

  datatype Outcome = Read(entries: seq<Entry>) | Panicked

  /** What reading the lines from `i` on comes to. */
  function Result(d: Decoder, lines: seq<string>, i: nat): Outcome {
    StartsAreTriples(lines, i);
    if Cut(lines, Starts(lines, i)) then Panicked else Read(Entries(d, lines, Starts(lines, i)))
  }

  /** The reader's first pass: trimmed lines, blank ones dropped. */
  method ReadLines(raw: seq<string>) returns (lines: seq<string>)
    ensures lines == Clean(raw)
  {
    lines := [];
    for j := 0 to |raw|
      invariant lines == Clean(raw[..j])
    {
      FlatMapNext(NonBlank, raw, j);
      var line := TrimRight(raw[j]);
      if line != "" { lines := lines + [line]; }
    }
    assert raw[..|raw|] == raw;
  }

  /** One recognised triple, skipped when its fields do not decode. */
  method ReadTriple(d: Decoder, name: string, line1: string, line2: string) returns (entry: Option<Entry>)
    requires |line1| >= 7
    ensures EntryOf(d, name, line1, line2) == if entry.Some? then [entry.value] else []
  {
    var noradId := d.noradId(line1[2..7]);
    if noradId.None? || |line1| < 32 { return None; }
    var epoch := d.epoch(line1[18..32]);
    if epoch.None? { return None; }
    entry := Some(Entry(noradId.value, d.name(name), epoch.value, line1, line2));
  }

  /** The slice that holds the identifier is taken before the line's length is checked. */
  method Parse(d: Decoder, raw: seq<string>) returns (out: Outcome)
    ensures out == Result(d, Clean(raw), 0)
  {
    var lines := ReadLines(raw);
    var entries: seq<Entry> := [];
    var i := 0;
    while i + 2 < |lines|
      invariant Result(d, lines, 0) == Prepend(entries, Result(d, lines, i))
      decreases |lines| - i
    {
      var name, line1, line2 := lines[i], lines[i + 1], lines[i + 2];
      ResultStep(d, lines, i);
      if !("1 " <= line1) || !("2 " <= line2) {
        i := i + 1;
        continue;
      }
      if |line1| < 7 { return Panicked; }
      PrependTwice(entries, EntryOf(d, name, line1, line2), Result(d, lines, i + 3));
      var entry := ReadTriple(d, name, line1, line2);
      assert entries + [] == entries;
      if entry.Some? { entries := entries + [entry.value]; }
      i := i + 3;
    }
    out := Read(entries);
    assert entries + [] == entries;
  }

  function Prepend(es: seq<Entry>, r: Outcome): Outcome {
    if r.Panicked? then Panicked else Read(es + r.entries)
  }

  lemma PrependTwice(es: seq<Entry>, fs: seq<Entry>, r: Outcome)
    ensures Prepend(es, Prepend(fs, r)) == Prepend(es + fs, r)
  {
    if r.Read? { assert es + (fs + r.entries) == es + fs + r.entries; }
  }

  lemma ResultStep(d: Decoder, lines: seq<string>, i: nat)
    requires i + 2 < |lines|
    ensures Result(d, lines, i) ==
            if !IsTriple(lines, i) then Result(d, lines, i + 1)
            else if |lines[i + 1]| < 7 then Panicked
            else Prepend(EntryOf(d, lines[i], lines[i + 1], lines[i + 2]), Result(d, lines, i + 3))
  {
    StartsAreTriples(lines, i);
    if IsTriple(lines, i) {
      StartsAreTriples(lines, i + 3);
      assert Starts(lines, i)[1..] == Starts(lines, i + 3);
    }
  }

  // ---- which triples are taken ----

  /** Disjoint triples in increasing order, from `i` on. */
  predicate Apart(lines: seq<string>, i: nat, ps: seq<nat>)
    decreases |ps|
  {
    ps == [] || (i <= ps[0] && IsTriple(lines, ps[0]) && Apart(lines, ps[0] + 3, ps[1..]))
  }

  predicate Overlapped(j: nat, ps: seq<nat>) {
    ps != [] && (ps[0] <= j < ps[0] + 3 || Overlapped(j, ps[1..]))
  }

  /** Disjoint triples such that every triple of the text overlaps one begun no later. */
  ghost predicate Greedy(lines: seq<string>, i: nat, ps: seq<nat>) {
    Apart(lines, i, ps) && forall j :: i <= j && IsTriple(lines, j) ==> Overlapped(j, ps)
  }

  lemma {:induction false} ApartStaysBehind(lines: seq<string>, i: nat, ps: seq<nat>, j: nat)
    requires Apart(lines, i, ps) && j < i
    ensures !Overlapped(j, ps)
    decreases |ps|
  {
    if ps != [] { ApartStaysBehind(lines, ps[0] + 3, ps[1..], j); }
  }

  lemma GreedyTake(lines: seq<string>, i: nat, rest: seq<nat>)
    requires IsTriple(lines, i)
    ensures Greedy(lines, i + 3, rest) <==> Greedy(lines, i, [i] + rest)
  {
    var ps := [i] + rest;
    assert ps[1..] == rest;
    if Greedy(lines, i, ps) {
      forall j | i + 3 <= j && IsTriple(lines, j) ensures Overlapped(j, rest) {
        assert Overlapped(j, ps);
      }
    }
  }

  lemma GreedyLeave(lines: seq<string>, i: nat, ps: seq<nat>)
    requires !IsTriple(lines, i)
    ensures Greedy(lines, i + 1, ps) <==> Greedy(lines, i, ps)
  {
  }

  /** The triples taken are greedy, and no other choice of triples is. */
  lemma {:induction false} StartsAreTheGreedyChoice(lines: seq<string>, i: nat, ps: seq<nat>)
    ensures Greedy(lines, i, ps) <==> ps == Starts(lines, i)
    decreases |lines| - i
  {
    if i + 2 >= |lines| {
    } else if IsTriple(lines, i) {
      var rest := Starts(lines, i + 3);
      StartsAreTheGreedyChoice(lines, i + 3, rest);
      GreedyTake(lines, i, rest);
      if Greedy(lines, i, ps) {
        assert Overlapped(i, ps);
        if ps[0] != i { ApartStaysBehind(lines, ps[0] + 3, ps[1..], i); }
        assert ps == [i] + ps[1..];
        GreedyTake(lines, i, ps[1..]);
        StartsAreTheGreedyChoice(lines, i + 3, ps[1..]);
      }
    } else {
      GreedyLeave(lines, i, ps);
      StartsAreTheGreedyChoice(lines, i + 1, ps);
    }
  }

  // ---- what the entries hold ----

  /** The triple's two fields decode from their columns. */
  predicate Decodes(d: Decoder, lines: seq<string>, p: nat) {
    && p + 1 < |lines| && |lines[p + 1]| >= 32
    && d.noradId(lines[p + 1][2..7]).Some? && d.epoch(lines[p + 1][18..32]).Some?
  }

  /** `e` is the triple at `p`: its own two lines, its trimmed name, and the fields decoded from their columns. */
  predicate Holds(d: Decoder, lines: seq<string>, p: nat, e: Entry) {
    && Decodes(d, lines, p) && p + 2 < |lines|
    && e.line1 == lines[p + 1] && e.line2 == lines[p + 2] && e.name == d.name(lines[p])
    && Some(e.noradId) == d.noradId(lines[p + 1][2..7])
    && Some(e.epoch) == d.epoch(lines[p + 1][18..32])
  }

  /** The triples whose fields decode, in order. */
  function Good(d: Decoder, lines: seq<string>, ps: seq<nat>): seq<nat> {
    if ps == [] then []
    else (if Decodes(d, lines, ps[0]) then [ps[0]] else []) + Good(d, lines, ps[1..])
  }

  lemma {:induction false} GoodMembers(d: Decoder, lines: seq<string>, ps: seq<nat>, p: nat)
    ensures p in Good(d, lines, ps) <==> p in ps && Decodes(d, lines, p)
  {
    if ps != [] {
      GoodMembers(d, lines, ps[1..], p);
      assert ps == [ps[0]] + ps[1..];
    }
  }

  lemma {:induction false} GoodIsOrdered(d: Decoder, lines: seq<string>, i: nat, ps: seq<nat>)
    requires Apart(lines, i, ps)
    ensures forall k :: 0 <= k < |Good(d, lines, ps)| ==> i <= Good(d, lines, ps)[k]
    ensures forall k, l :: 0 <= k < l < |Good(d, lines, ps)| ==> Good(d, lines, ps)[k] + 3 <= Good(d, lines, ps)[l]
    decreases |ps|
  {
    if ps != [] { GoodIsOrdered(d, lines, ps[0] + 3, ps[1..]); }
  }

  lemma {:induction false} EntriesHold(d: Decoder, lines: seq<string>, ps: seq<nat>)
    requires AllTriples(lines, ps)
    ensures |Entries(d, lines, ps)| == |Good(d, lines, ps)|
    ensures forall k :: 0 <= k < |Good(d, lines, ps)| ==>
              Holds(d, lines, Good(d, lines, ps)[k], Entries(d, lines, ps)[k])
  {
    if ps != [] { EntriesHold(d, lines, ps[1..]); }
  }

  /**
   * Of any text that does not panic: one entry, in order, for every triple taken whose fields decode,
   * holding that triple's own lines, name and fields.
   */
  lemma EntriesAreTheTriples(d: Decoder, raw: seq<string>) returns (qs: seq<nat>)
    requires Result(d, Clean(raw), 0).Read?
    ensures var lines, entries := Clean(raw), Result(d, Clean(raw), 0).entries;
            && |entries| == |qs|
            && (forall k :: 0 <= k < |qs| ==> Holds(d, lines, qs[k], entries[k]))
            && (forall k, l :: 0 <= k < l < |qs| ==> qs[k] + 3 <= qs[l])
            && forall p :: p in qs <==> p in Starts(lines, 0) && Decodes(d, lines, p)
  {
    var lines := Clean(raw);
    var ps := Starts(lines, 0);
    StartsAreTriples(lines, 0);
    StartsAreTheGreedyChoice(lines, 0, ps);
    qs := Good(d, lines, ps);
    EntriesHold(d, lines, ps);
    GoodIsOrdered(d, lines, 0, ps);
    forall p: nat { GoodMembers(d, lines, ps, p); }
  }

  // ---- when it panics ----

  lemma {:induction false} CutIff(lines: seq<string>, ps: seq<nat>)
    requires AllTriples(lines, ps)
    ensures Cut(lines, ps) <==> exists p :: p in ps && IsTriple(lines, p) && |lines[p + 1]| < 7
  {
    if ps != [] {
      CutIff(lines, ps[1..]);
      assert forall p :: p in ps <==> p == ps[0] || p in ps[1..];
    }
  }

  /** On any text: exactly when a triple it takes has a first line of fewer than seven characters. */
  lemma PanicsIff(d: Decoder, raw: seq<string>)
    ensures var lines := Clean(raw);
            Result(d, lines, 0).Panicked? <==>
            exists p :: p in Starts(lines, 0) && IsTriple(lines, p) && |lines[p + 1]| < 7
  {
    StartsAreTriples(Clean(raw), 0);
    CutIff(Clean(raw), Starts(Clean(raw), 0));
  }

  /** Such a text: a name and two lines cut off after three characters. */
  lemma ShortTriplePanics(d: Decoder)
    ensures Result(d, Clean(["x", "1 x", "2 x"]), 0) == Panicked
  {
    var raw := ["x", "1 x", "2 x"];
    assert raw[..2] == ["x", "1 x"] && ["x", "1 x"][..1] == ["x"] && ["x"][..0] == [];
    assert NonBlank("x") == ["x"] && NonBlank("1 x") == ["1 x"] && NonBlank("2 x") == ["2 x"];
    assert Clean(["x"]) == ["x"];
    assert Clean(["x", "1 x"]) == ["x", "1 x"];
    assert Clean(raw) == raw;
    ResultStep(d, raw, 0);
  }

  // ---- round trip ----

  datatype Item = Noise(line: string) | Triple(name: string, line1: string, line2: string)

  function TextOf(item: Item): seq<string> {
    match item
    case Noise(line) => [line]
    case Triple(name, line1, line2) => [name, line1, line2]
  }

  function Text(items: seq<Item>): seq<string> {
    if items == [] then [] else TextOf(items[0]) + Text(items[1..])
  }

  /** Nothing is asked of names: a name may even look like a first or second line. */
  predicate Readable(item: Item) {
    match item
    case Noise(line) => !("1 " <= line)
    case Triple(_, line1, line2) => "1 " <= line1 && "2 " <= line2
  }

  /** A triple as an entry, unless its first line is short or a field does not decode. */
  function Held(d: Decoder, name: string, line1: string, line2: string): seq<Entry> {
    if |line1| >= 32 && d.noradId(line1[2..7]).Some? && d.epoch(line1[18..32]).Some?
    then [Entry(d.noradId(line1[2..7]).value, d.name(name), d.epoch(line1[18..32]).value, line1, line2)]
    else []
  }

  /** What the triples hold, in order, whatever lies between them. */
  function Contents(d: Decoder, items: seq<Item>): Outcome {
    if items == [] then Read([])
    else
      match items[0]
      case Noise(_) => Contents(d, items[1..])
      case Triple(name, line1, line2) =>
        if |line1| < 7 then Panicked else Prepend(Held(d, name, line1, line2), Contents(d, items[1..]))
  }

  lemma HeldIsRead(d: Decoder, name: string, line1: string, line2: string)
    ensures Held(d, name, line1, line2) == EntryOf(d, name, line1, line2)
  {
  }

  lemma NoiseIsNoTriple(lines: seq<string>, i: nat, items: seq<Item>)
    requires i <= |lines| && lines[i..] == Text(items) && items != [] && items[0].Noise?
    requires forall item :: item in items ==> Readable(item)
    ensures !IsTriple(lines, i)
  {
    if i + 2 < |lines| {
      var rest := items[1..];
      assert Text(items)[1..] == Text(rest) && lines[i + 1..] == Text(rest);
      assert rest[0] in items && Readable(rest[0]);
      assert Text(rest)[0] == lines[i + 1] && Text(rest)[1] == lines[i + 2];
      match rest[0]
      case Noise(line) => assert lines[i + 1] == line;
      case Triple(_, line1, _) => assert lines[i + 2] == line1 && line1[0] == '1';
    }
  }

  lemma {:induction false} ContentsAreRead(d: Decoder, lines: seq<string>, i: nat, items: seq<Item>)
    requires i <= |lines| && lines[i..] == Text(items)
    requires forall item :: item in items ==> Readable(item)
    ensures Result(d, lines, i) == Contents(d, items)
    decreases |items|
  {
    if items != [] {
      assert items[0] in items && Readable(items[0]);
      var next := i + |TextOf(items[0])|;
      assert lines[next..] == Text(items[1..]) by {
        assert lines[next..] == lines[i..][|TextOf(items[0])|..];
      }
      ContentsAreRead(d, lines, next, items[1..]);
      match items[0]
      case Noise(_) =>
        NoiseIsNoTriple(lines, i, items);
        if i + 2 < |lines| { ResultStep(d, lines, i); }
      case Triple(name, line1, line2) =>
        assert lines[i] == lines[i..][0] && lines[i + 1] == lines[i..][1] && lines[i + 2] == lines[i..][2];
        HeldIsRead(d, name, line1, line2);
        ResultStep(d, lines, i);
    }
  }

  /**
   * Reading gives back exactly the triples that were written, in order, with blank lines, trailing
   * spaces and carriage returns anywhere and noise between triples, and panics exactly when some
   * triple's first line is shorter than seven characters.
   */
  lemma ReadingGivesBackContents(d: Decoder, raw: seq<string>, items: seq<Item>)
    requires Clean(raw) == Text(items) && forall item :: item in items ==> Readable(item)
    ensures Result(d, Clean(raw), 0) == Contents(d, items)
    ensures Result(d, Clean(raw), 0).Panicked? <==> exists item :: item in items && item.Triple? && |item.line1| < 7
  {
    assert Clean(raw)[0..] == Clean(raw);
    ContentsAreRead(d, Clean(raw), 0, items);
    ContentsPanic(d, items);
  }

  lemma {:induction false} ContentsPanic(d: Decoder, items: seq<Item>)
    ensures Contents(d, items).Panicked? <==> exists item :: item in items && item.Triple? && |item.line1| < 7
  {
    if items != [] {
      ContentsPanic(d, items[1..]);
      assert items == [items[0]] + items[1..];
    }
  }

  /** Noise that looks like a first line can swallow the name of the triple after it. */
  lemma NoiseCanHideATriple(d: Decoder, line1: string, line2: string)
    requires "1 " <= line1 && "2 " <= line2
    ensures Starts(Text([Noise("x"), Noise("1 x"), Triple("2 x", line1, line2)]), 0) == [0]
  {
    var items := [Noise("x"), Noise("1 x"), Triple("2 x", line1, line2)];
    assert items[1..][1..][1..] == [];
    assert Text(items[1..][1..]) == ["2 x", line1, line2];
    assert Text(items[1..]) == ["1 x", "2 x", line1, line2];
    var lines := ["x", "1 x", "2 x", line1, line2];
    assert Text(items) == lines;
    assert IsTriple(lines, 0) && Starts(lines, 3) == [];
  }

  /** Spaces and carriage returns at the end of a line make no difference; what is left ends in neither. */
  lemma {:induction false} LineEndingsAreDropped(line: string, ending: string)
    requires forall c :: c in ending ==> c in "\r\n "
    ensures TrimRight(line + ending) == TrimRight(line)
    ensures line != "" && line[|line| - 1] !in "\r\n " ==> TrimRight(line + ending) == line
  {
    if ending == "" {
      assert line + ending == line;
    } else {
      var rest := ending[..|ending| - 1];
      LineEndingsAreDropped(line, rest);
      assert (line + ending)[..|line + ending| - 1] == line + rest;
      assert ending[|ending| - 1] in ending;
    }
  }

  /** A line that is not blank is kept in its place without its ending, and a blank one is dropped. */
  lemma LinesAreKept(before: seq<string>, line: string, ending: string, after: seq<string>)
    requires line != "" && line[|line| - 1] !in "\r\n " && forall c :: c in ending ==> c in "\r\n "
    ensures Clean(before + [line + ending] + after) == Clean(before) + [line] + Clean(after)
  {
    LineEndingsAreDropped(line, ending);
    FlatMapLast(NonBlank, before, line + ending);
    FlatMapAppend(NonBlank, before + [line + ending], after);
  }

  lemma BlankLinesAreDropped(before: seq<string>, blank: string, after: seq<string>)
    requires TrimRight(blank) == ""
    ensures Clean(before + [blank] + after) == Clean(before + after)
  {
    FlatMapLast(NonBlank, before, blank);
    FlatMapAppend(NonBlank, before + [blank], after);
    FlatMapAppend(NonBlank, before, after);
  }
}
