/**
 * The chunks of the content index (ADR-021): the cutter that decides where one ends, the worker
 * that writes them, and the passage search that finds them in the text again.
 */
module ContentChunks {
  import opened Basics
  import opened Utf8

  const NEWLINE: Scalar := 10

  function Joined(lines: seq<Text>): Text {
    if lines == [] then []
    else if |lines| == 1 then lines[0]
    else Joined(lines[..|lines| - 1]) + [NEWLINE] + lines[|lines| - 1]
  }

  function JoinedSize(lines: seq<Text>): nat { Size(Joined(lines)) }

  lemma JoinedOneMore(lines: seq<Text>, line: Text)
    ensures lines != [] ==> Joined(lines + [line]) == Joined(lines) + [NEWLINE] + line
    ensures lines != [] ==> JoinedSize(lines + [line]) == JoinedSize(lines) + 1 + Size(line)
    ensures Joined([line]) == line
  {
    assert (lines + [line])[..|lines|] == lines;
    SizeAdds(Joined(lines) + [NEWLINE], line);
    SizeAdds(Joined(lines), [NEWLINE]);
    assert Encode([NEWLINE]) == [NEWLINE];
  }

  // ---- the cutter ----

  datatype Counter = Counter(bytes: nat, lines: nat)

  datatype PlacedLine = PlacedLine(bytes: nat, breakBefore: bool, kept: Text, alone: bool)

  function Place(c: Counter, line: Text, max: nat): (Counter, PlacedLine) {
    var bytes := Size(line);
    var withNewline := bytes + if c.lines > 0 then 1 else 0;
    var breakBefore := c.lines > 0 && c.bytes + withNewline > max;
    var from := if breakBefore then Counter(0, 0) else c;
    if bytes > max then (from, PlacedLine(bytes, breakBefore, TruncateToByteLimit(line, max), true))
    else (Counter(from.bytes + withNewline, from.lines + 1), PlacedLine(bytes, breakBefore, line, false))
  }

  class ContentChunkCutter {
    const max: nat
    var bytes: nat
    var lines: nat

    ghost function Value(): Counter reads this { Counter(bytes, lines) }

    constructor (max: nat)
      ensures Value() == Counter(0, 0) && this.max == max
    {
      this.max := max;
      bytes, lines := 0, 0;
    }

    method PlaceLine(line: Text) returns (placed: PlacedLine)
      modifies this
      ensures (Value(), placed) == Place(old(Value()), line, max)
    {
      var size := Size(line);
      var withNewline := size + if lines > 0 then 1 else 0;
      var breakBefore := false;
      if lines > 0 && bytes + withNewline > max {
        breakBefore := true;
        bytes := 0;
        lines := 0;
      }
      if size > max {
        return PlacedLine(size, breakBefore, TruncateToByteLimit(line, max), true);
      }
      lines := lines + 1;
      bytes := bytes + withNewline;
      return PlacedLine(size, breakBefore, line, false);
    }
  }

  // ---- the chunks of a text ----

  /** The lines of the chunks so far, as they came, and of the one that may take more. */
  datatype Cutting = Cutting(counter: Counter, done: seq<seq<Text>>, open: seq<Text>) {
    function Chunks(): seq<seq<Text>> { if open == [] then done else done + [open] }
  }

  function Take(c: Cutting, line: Text, max: nat): Cutting {
    var (counter, placed) := Place(c.counter, line, max);
    var (done, open) := if placed.breakBefore then (c.done + [c.open], []) else (c.done, c.open);
    if placed.alone then Cutting(counter, done + [open + [line]], []) else Cutting(counter, done, open + [line])
  }

  function Cut(lines: seq<Text>, max: nat): Cutting {
    if lines == [] then Cutting(Counter(0, 0), [], [])
    else Take(Cut(lines[..|lines| - 1], max), lines[|lines| - 1], max)
  }

  function Flatten(chunks: seq<seq<Text>>): seq<Text> {
    if chunks == [] then [] else Flatten(chunks[..|chunks| - 1]) + chunks[|chunks| - 1]
  }

  /** What a chunk holds of its lines. */
  function KeptOf(lines: seq<Text>, max: nat): (kept: seq<Text>)
    ensures |kept| == |lines|
  {
    seq(|lines|, i requires 0 <= i < |lines| => TruncateToByteLimit(lines[i], max))
  }

  predicate AllFit(lines: seq<Text>, max: nat) { forall l :: l in lines ==> Size(l) <= max }

  /** Either lines that all fit, or one over-long line cut to size; within the limit either way. */
  predicate ChunkFits(chunk: seq<Text>, max: nat) {
    chunk != [] && (AllFit(chunk, max) || |chunk| == 1) && JoinedSize(KeptOf(chunk, max)) <= max
  }

  /**
   * What the counter has over the size of chunk `n`: the line break before its first line, where
   * that line was to join the chunk before; behind an over-long line, and at first, none is.
   */
  function Extra(chunks: seq<seq<Text>>, n: nat, max: nat): nat
    requires n <= |chunks|
  {
    if n > 0 && AllFit(chunks[n - 1], max) then 1 else 0
  }

  /** The next line would have taken the chunk past its limit, as the counter has it. */
  predicate Filled(chunk: seq<Text>, next: seq<Text>, extra: nat, max: nat) {
    AllFit(chunk, max) && next != [] ==> JoinedSize(chunk) + extra + 1 + Size(next[0]) > max
  }

  predicate AllFilled(chunks: seq<seq<Text>>, max: nat) {
    forall n :: 0 < n < |chunks| ==> Filled(chunks[n - 1], chunks[n], Extra(chunks, n - 1, max), max)
  }

  /** And no line joined a chunk which that would have taken past it. */
  predicate AllWithin(chunks: seq<seq<Text>>, max: nat) {
    forall n: nat :: n < |chunks| && |chunks[n]| > 1 ==> JoinedSize(chunks[n]) + Extra(chunks, n, max) <= max
  }

  /** What the counter holds, exactly. */
  predicate CountsWithin(c: Cutting, max: nat) {
    && c.counter.lines == |c.open|
    && (c.open == [] ==> c.counter.bytes == 0 && Extra(c.done, |c.done|, max) == 0)
    && (c.open != [] ==>
          && AllFit(c.open, max) && JoinedSize(c.open) <= max
          && c.counter.bytes == JoinedSize(c.open) + Extra(c.done, |c.done|, max)
          && (|c.open| > 1 ==> c.counter.bytes <= max))
  }

  predicate Sound(c: Cutting, max: nat) {
    && CountsWithin(c, max)
    && (forall g :: g in c.done ==> ChunkFits(g, max))
    && AllFilled(c.Chunks(), max) && AllWithin(c.done, max)
  }

  lemma FittingIsKept(lines: seq<Text>, max: nat)
    requires AllFit(lines, max)
    ensures KeptOf(lines, max) == lines
  {
    forall i | 0 <= i < |lines| ensures KeptOf(lines, max)[i] == lines[i] { TruncationKeeps(lines[i], max); }
  }

  lemma TakeCounts(c: Cutting, line: Text, max: nat)
    requires CountsWithin(c, max)
    ensures CountsWithin(Take(c, line, max), max)
    ensures Size(line) > max ==> Take(c, line, max).open == [] && Place(c.counter, line, max).1.breakBefore == (c.open != [])
    ensures Place(c.counter, line, max).1.breakBefore <==>
      c.open != [] && JoinedSize(c.open) + Extra(c.done, |c.done|, max) + 1 + Size(line) > max
  {
    hide Size;
    JoinedOneMore(c.open, line);
    assert [] + [line] == [line];
  }

  lemma LineAlone(line: Text, max: nat)
    ensures ChunkFits([line], max) && (AllFit([line], max) <==> Size(line) <= max)
  {
    TruncationKeeps(line, max);
    assert KeptOf([line], max) == [TruncateToByteLimit(line, max)];
    assert line in [line];
  }

  lemma FilledMore(chunks: seq<seq<Text>>, next: seq<Text>, max: nat)
    requires AllFilled(chunks, max)
    requires chunks == [] || Filled(chunks[|chunks| - 1], next, Extra(chunks, |chunks| - 1, max), max)
    ensures AllFilled(chunks + [next], max)
  {
    hide Filled, AllFit;
    var more := chunks + [next];
    forall n | 0 < n < |more| ensures Filled(more[n - 1], more[n], Extra(more, n - 1, max), max) {
      assert Extra(more, n - 1, max) == Extra(chunks, n - 1, max);
    }
  }

  /** A chunk closed: within the limit as the counter had it. */
  lemma WithinMore(chunks: seq<seq<Text>>, next: seq<Text>, max: nat)
    requires AllWithin(chunks, max) && (|next| > 1 ==> JoinedSize(next) + Extra(chunks, |chunks|, max) <= max)
    ensures AllWithin(chunks + [next], max)
  {
    hide AllFit, JoinedSize;
    var more := chunks + [next];
    forall n: nat | n < |more| && |more[n]| > 1 ensures JoinedSize(more[n]) + Extra(more, n, max) <= max {
      assert Extra(more, n, max) == Extra(chunks, n, max);
    }
  }

  /** A longer last chunk begins with the same line. */
  lemma FilledLonger(done: seq<seq<Text>>, open: seq<Text>, line: Text, max: nat)
    requires open != [] && AllFilled(done + [open], max)
    ensures AllFilled(done + [open + [line]], max) && AllFilled(done, max)
  {
    hide Size, JoinedSize, AllFit;
    var chunks, longer := done + [open], done + [open + [line]];
    assert (open + [line])[0] == open[0];
    forall n | 0 < n < |longer| ensures Filled(longer[n - 1], longer[n], Extra(longer, n - 1, max), max) {
      assert Filled(chunks[n - 1], chunks[n], Extra(chunks, n - 1, max), max);
      assert Extra(longer, n - 1, max) == Extra(chunks, n - 1, max);
    }
    forall n | 0 < n < |done| ensures Filled(done[n - 1], done[n], Extra(done, n - 1, max), max) {
      assert Filled(chunks[n - 1], chunks[n], Extra(chunks, n - 1, max), max);
      assert Extra(done, n - 1, max) == Extra(chunks, n - 1, max);
    }
  }

  /** Where a line goes: it begins a chunk, or joins the open one. */
  lemma TakeShape(c: Cutting, line: Text, max: nat)
    requires CountsWithin(c, max)
    ensures var placed, t := Place(c.counter, line, max).1, Take(c, line, max);
      && (placed.alone <==> Size(line) > max)
      && (placed.breakBefore || c.open == [] ==>
            t == Cutting(t.counter, if placed.alone then c.Chunks() + [[line]] else c.Chunks(), if placed.alone then [] else [line]))
      && (!placed.breakBefore && c.open != [] ==>
            !placed.alone && t == Cutting(t.counter, c.done, c.open + [line]))
  {
    TakeCounts(c, line, max);
    hide Size, CountsWithin;
    assert [] + [line] == [line];
  }

  /** A chunk that ends with this line fits, and could not have held the line as well. */
  lemma TakeCloses(c: Cutting, line: Text, max: nat)
    requires Sound(c, max)
    ensures var placed := Place(c.counter, line, max).1;
      && (placed.breakBefore ==> c.open != [] && ChunkFits(c.open, max) && Filled(c.open, [line], Extra(c.done, |c.done|, max), max))
      && (placed.breakBefore && |c.open| > 1 ==> JoinedSize(c.open) + Extra(c.done, |c.done|, max) <= max)
      && (c.open == [] && c.done != [] ==> Filled(c.done[|c.done| - 1], [line], Extra(c.done, |c.done| - 1, max), max))
      && ChunkFits([line], max) && (placed.alone ==> !AllFit([line], max))
  {
    TakeCounts(c, line, max);
    LineAlone(line, max);
    TakeShape(c, line, max);
    if c.open != [] { FittingIsKept(c.open, max); }
    hide Take, Place, KeptOf, Size, Joined;
  }

  lemma TakeSound(c: Cutting, line: Text, max: nat)
    requires Sound(c, max)
    ensures Sound(Take(c, line, max), max)
  {
    hide Take, Place, KeptOf, Size, Joined, ChunkFits, AllFit, CountsWithin, Filled, AllFilled;
    TakeCounts(c, line, max);
    TakeShape(c, line, max);
    TakeCloses(c, line, max);
    if Place(c.counter, line, max).1.breakBefore || c.open == [] {
      assert c.open != [] ==> Extra(c.Chunks(), |c.done|, max) == Extra(c.done, |c.done|, max);
      FilledMore(c.Chunks(), [line], max);
      if c.open != [] { WithinMore(c.done, c.open, max); }
      WithinMore(c.Chunks(), [line], max);
    } else {
      FilledLonger(c.done, c.open, line, max);
    }
  }

  lemma {:induction false} CutSound(lines: seq<Text>, max: nat)
    ensures Sound(Cut(lines, max), max)
  {
    if lines != [] {
      CutSound(lines[..|lines| - 1], max);
      TakeSound(Cut(lines[..|lines| - 1], max), lines[|lines| - 1], max);
    }
  }

  lemma FlattenOneMore(chunks: seq<seq<Text>>, chunk: seq<Text>)
    ensures Flatten(chunks + [chunk]) == Flatten(chunks) + chunk
  {
    assert (chunks + [chunk])[..|chunks|] == chunks;
  }

  lemma TakeKeepsLine(c: Cutting, line: Text, max: nat)
    ensures Flatten(Take(c, line, max).done) + Take(c, line, max).open == Flatten(c.done) + c.open + [line]
  {
    hide Flatten;
    FlattenOneMore(c.done, c.open);
    FlattenOneMore(c.done, c.open + [line]);
    FlattenOneMore(c.done + [c.open], [] + [line]);
  }

  lemma {:induction false} CutKeepsLines(lines: seq<Text>, max: nat)
    ensures Flatten(Cut(lines, max).done) + Cut(lines, max).open == lines
    ensures Flatten(Cut(lines, max).Chunks()) == lines
  {
    hide Take;
    if lines != [] {
      var before, line := lines[..|lines| - 1], lines[|lines| - 1];
      CutKeepsLines(before, max);
      TakeKeepsLine(Cut(before, max), line, max);
      assert lines == before + [line];
    }
    FlattenOneMore(Cut(lines, max).done, Cut(lines, max).open);
  }

  /**
   * The chunks of any lines: put back together they are the lines, in order; each holds at most
   * `max` bytes; no line is cut but one that exceeds `max` alone, which shares its chunk
   * with no other; and a line begins a new chunk exactly when it would have taken the one
   * before past the limit, counting the line break the counter has over.
   */
  lemma ChunksOfLines(lines: seq<Text>, max: nat)
    ensures var chunks := Cut(lines, max).Chunks();
      && Flatten(chunks) == lines
      && (forall n :: 0 <= n < |chunks| ==> ChunkFits(chunks[n], max))
      && AllFilled(chunks, max) && AllWithin(chunks, max)
  {
    CutKeepsLines(lines, max);
    CutSound(lines, max);
    var c := Cut(lines, max);
    if c.open != [] {
      FittingIsKept(c.open, max);
      WithinMore(c.done, c.open, max);
    }
  }

  // ---- the worker writes them ----

  function TextOf(chunk: seq<Text>, max: nat): Text { Joined(KeptOf(chunk, max)) }

  function Texts(chunks: seq<seq<Text>>, max: nat): (texts: seq<Text>)
    ensures |texts| == |chunks|
  {
    seq(|chunks|, n requires 0 <= n < |chunks| => TextOf(chunks[n], max))
  }

  function TotalSize(texts: seq<Text>): nat {
    if texts == [] then 0 else TotalSize(texts[..|texts| - 1]) + Size(texts[|texts| - 1])
  }

  /** The bytes of the chunks and a line break between each are those of the chunks joined. */
  lemma {:induction false} TotalIsJoined(texts: seq<Text>)
    requires texts != []
    ensures TotalSize(texts) + |texts| - 1 == JoinedSize(texts)
  {
    var n := |texts| - 1;
    assert texts == texts[..n] + [texts[n]];
    if n > 0 { TotalIsJoined(texts[..n]); }
    JoinedOneMore(texts[..n], texts[n]);
    hide Joined, Size;
    assert n == 0 ==> texts[..n] == [] && texts == [texts[n]];
  }

  /** Of lines that fit, the sizes told differ by the line breaks between the chunks. */
  lemma SizesTold(lines: seq<Text>, max: nat)
    requires AllFit(lines, max) && lines != []
    ensures var texts := Texts(Cut(lines, max).Chunks(), max);
      texts != [] && TotalSize(texts) + |texts| - 1 == JoinedSize(lines)
  {
    ChunksRejoined(lines, max);
    ChunksOfLines(lines, max);
    hide Cut, Texts, TextOf, AllFit, ChunkFits, TotalSize, JoinedSize;
    var texts := Texts(Cut(lines, max).Chunks(), max);
    TotalIsJoined(texts);
    JoinedSizes(texts, lines);
  }

  lemma JoinedSizes(a: seq<Text>, b: seq<Text>)
    requires Joined(a) == Joined(b)
    ensures JoinedSize(a) == JoinedSize(b)
  {
  }

  lemma KeptOneMore(lines: seq<Text>, line: Text, max: nat)
    ensures KeptOf(lines + [line], max) == KeptOf(lines, max) + [TruncateToByteLimit(line, max)]
    ensures KeptOf([], max) == []
  {
  }

  lemma TextsOneMore(chunks: seq<seq<Text>>, chunk: seq<Text>, max: nat)
    ensures Texts(chunks + [chunk], max) == Texts(chunks, max) + [TextOf(chunk, max)]
  {
  }

  lemma PlaceKeeps(c: Counter, line: Text, max: nat)
    ensures Place(c, line, max).1.kept == TruncateToByteLimit(line, max) && Place(c, line, max).1.bytes == Size(line)
  {
  }

  lemma WritesNothing(max: nat)
    ensures Texts([], max) == [] && KeptOf([], max) == [] && JoinedSize([]) == 0
  {
  }

  lemma TextIs(chunk: seq<Text>, max: nat)
    ensures TextOf(chunk, max) == Joined(KeptOf(chunk, max))
  {
  }

  lemma {:induction false} JoinedAdds(a: seq<Text>, b: seq<Text>)
    requires a != [] && b != []
    ensures Joined(a + b) == Joined(a) + [NEWLINE] + Joined(b)
  {
    hide Joined, JoinedSize;
    var rest, last := b[..|b| - 1], b[|b| - 1];
    JoinedOneMore(a + rest, last);
    JoinedOneMore(rest, last);
    assert b == rest + [last] && a + b == (a + rest) + [last];
    if rest == [] {
      assert a + rest == a && b == [last];
    } else {
      JoinedAdds(a, rest);
      assert Joined(a) + [NEWLINE] + Joined(rest) + [NEWLINE] + last == Joined(a) + [NEWLINE] + (Joined(rest) + [NEWLINE] + last);
    }
  }

  lemma {:induction false} FlattenJoins(chunks: seq<seq<Text>>, max: nat)
    requires forall g :: g in chunks ==> g != [] && AllFit(g, max)
    ensures Joined(Texts(chunks, max)) == Joined(Flatten(chunks))
    ensures chunks != [] ==> Flatten(chunks) != []
  {
    if chunks != [] {
      var before, last := chunks[..|chunks| - 1], chunks[|chunks| - 1];
      assert chunks == before + [last];
      forall g | g in before ensures g in chunks {}
      FlattenJoins(before, max);
      TextsOneMore(before, last, max);
      FittingIsKept(last, max);
      hide Texts, KeptOf, AllFit;
      if before == [] {
        assert Flatten(before) + last == last && [] + [TextOf(last, max)] == [TextOf(last, max)];
      } else {
        JoinedAdds(Flatten(before), last);
        JoinedOneMore(Texts(before, max), TextOf(last, max));
      }
    }
  }

  lemma {:induction false} FlattenHolds(chunks: seq<seq<Text>>, g: seq<Text>, l: Text)
    requires g in chunks && l in g
    ensures l in Flatten(chunks)
  {
    if g != chunks[|chunks| - 1] { FlattenHolds(chunks[..|chunks| - 1], g, l); }
  }

  /** Where no line is longer than a chunk, the chunks joined again are the text. */
  lemma ChunksRejoined(lines: seq<Text>, max: nat)
    requires AllFit(lines, max)
    ensures Joined(Texts(Cut(lines, max).Chunks(), max)) == Joined(lines)
  {
    var chunks := Cut(lines, max).Chunks();
    ChunksOfLines(lines, max);
    forall g | g in chunks ensures g != [] && AllFit(g, max) {
      forall l | l in g ensures Size(l) <= max { FlattenHolds(chunks, g, l); }
    }
    FlattenJoins(chunks, max);
  }

  /** What taking a line does to the texts written and the lines held back, a flush at a time. */
  lemma TakeWrites(c: Cutting, line: Text, max: nat)
    ensures Take(c, line, max).counter == Place(c.counter, line, max).0
    ensures
      var placed, t, held := Place(c.counter, line, max).1, Take(c, line, max), KeptOf(c.open, max);
      var docs := if placed.breakBefore then Texts(c.done, max) + [Joined(held)] else Texts(c.done, max);
      var lines := (if placed.breakBefore then [] else held) + [placed.kept];
      && Texts(t.done, max) == (if placed.alone then docs + [Joined(lines)] else docs)
      && KeptOf(t.open, max) == if placed.alone then [] else lines
  {
    PlaceKeeps(c.counter, line, max);
    KeptOneMore(c.open, line, max);
    KeptOneMore([], line, max);
    TextsOneMore(c.done, c.open, max);
    hide Place, TruncateToByteLimit, KeptOf, Texts;
    var placed := Place(c.counter, line, max).1;
    var done, open := if placed.breakBefore then c.done + [c.open] else c.done, if placed.breakBefore then [] else c.open;
    TextsOneMore(done, open + [line], max);
  }

  class ChunkWriter {
    var docs: seq<Text>
    var chunkLines: seq<Text>
    var indexedBytes: nat

    constructor ()
      ensures docs == [] && chunkLines == [] && indexedBytes == 0
    {
      docs, chunkLines, indexedBytes := [], [], 0;
    }

    method FlushChunk()
      requires indexedBytes == TotalSize(docs)
      modifies this
      ensures docs == old(docs) + [Joined(old(chunkLines))] && chunkLines == []
      ensures indexedBytes == TotalSize(docs)
    {
      var text := Joined(chunkLines);
      docs := docs + [text];
      indexedBytes := indexedBytes + Size(text);
      chunkLines := [];
    }

    /** Index `lines`: the chunks written are those of the lines, and the sizes told are theirs. */
    method WriteChunks(lines: seq<Text>, max: nat) returns (chunks: nat, originalBytes: nat)
      requires docs == [] && chunkLines == [] && indexedBytes == 0
      modifies this
      ensures docs == Texts(Cut(lines, max).Chunks(), max)
      ensures chunks == |docs| && indexedBytes == TotalSize(docs) && originalBytes == JoinedSize(lines)
    {
      hide Place, Take, Size, Joined, Texts, TextOf, KeptOf, TruncateToByteLimit;
      originalBytes := 0;
      var cutter := new ContentChunkCutter(max);
      WritesNothing(max);
      for n := 0 to |lines|
        invariant fresh(cutter) && cutter.max == max
        invariant cutter.Value() == Cut(lines[..n], max).counter
        invariant docs == Texts(Cut(lines[..n], max).done, max) && chunkLines == KeptOf(Cut(lines[..n], max).open, max)
        invariant indexedBytes == TotalSize(docs) && originalBytes == JoinedSize(lines[..n])
      {
        ghost var c := Cut(lines[..n], max);
        var line := lines[n];
        assert lines[..n + 1][..n] == lines[..n];
        var placed := cutter.PlaceLine(line);
        PlaceKeeps(c.counter, line, max);
        TakeWrites(c, line, max);
        originalBytes := originalBytes + placed.bytes + if n > 0 then 1 else 0;
        assert lines[..n + 1] == lines[..n] + [line];
        JoinedOneMore(lines[..n], line);
        assert Cut(lines[..n + 1], max) == Take(c, line, max);
        if placed.breakBefore { FlushChunk(); }
        chunkLines := chunkLines + [placed.kept];
        if placed.alone { FlushChunk(); }
      }
      assert lines[..|lines|] == lines;
      TextsOneMore(Cut(lines, max).done, Cut(lines, max).open, max);
      TextIs(Cut(lines, max).open, max);
      if chunkLines != [] { FlushChunk(); }
      chunks := |docs|;
    }
  }

  // ---- a passage search finds them ----

  /** The lines a block adds: none for a block without text. */
  function IndexedLines(block: Text): seq<Text> {
    if block == [] then [] else SplitLines(block)
  }

  /** A block without text adds no line; any other adds the lines it is made of. */
  lemma IndexedLinesAre(block: Text)
    ensures block == [] <==> IndexedLines(block) == []
    ensures Joined(IndexedLines(block)) == block && forall line :: line in IndexedLines(block) ==> NEWLINE !in line
  {
    if block != [] { LinesJoin(block); }
  }

  function SplitLines(text: Text): (lines: seq<Text>)
    ensures |lines| > 0
  {
    if text == [] then [[]]
    else if text[0] == NEWLINE then [[]] + SplitLines(text[1..])
    else [[text[0]] + SplitLines(text[1..])[0]] + SplitLines(text[1..])[1..]
  }

  /** The lines of a block are what lies between its line breaks, and joined they are the block. */
  lemma {:induction false} LinesJoin(text: Text)
    ensures Joined(SplitLines(text)) == text
    ensures forall line :: line in SplitLines(text) ==> NEWLINE !in line
  {
    if text != [] {
      var rest := SplitLines(text[1..]);
      LinesJoin(text[1..]);
      assert rest == [rest[0]] + rest[1..];
      if text[0] == NEWLINE {
        JoinedAdds([[]], rest);
        JoinedOneMore([], []);
      } else {
        JoinedFirst([text[0]], rest);
      }
    }
  }

  /** A longer first line lengthens the whole by as much. */
  lemma JoinedFirst(more: Text, lines: seq<Text>)
    requires lines != []
    ensures Joined([more + lines[0]] + lines[1..]) == more + Joined(lines)
  {
    hide *;
    var first, rest := lines[0], lines[1..];
    JoinedOne(first);
    JoinedOne(more + first);
    assert lines == [first] + rest;
    if rest == [] {
      assert lines == [first] && [more + first] + rest == [more + first];
    } else {
      JoinedAdds([first], rest);
      JoinedAdds([more + first], rest);
      var tail := [NEWLINE] + Joined(rest);
      assert Joined(lines) == first + tail;
      assert Joined([more + first] + rest) == more + first + tail;
    }
  }

  lemma JoinedOne(line: Text)
    ensures Joined([line]) == line
  {
  }

  predicate SpanHolds(span: (nat, nat), buf: Text, text: Text) {
    span.0 <= span.1 <= |buf| && buf[span.0..span.1] == text
  }

  /** Each chunk is where its span says; the one that may take more lines ends the text. */
  predicate SpansHold(spans: seq<(nat, nat)>, buf: Text, c: Cutting, max: nat) {
    && |spans| == |c.Chunks()|
    && (forall n :: 0 <= n < |spans| ==> SpanHolds(spans[n], buf, TextOf(c.Chunks()[n], max)))
    && (c.open != [] ==> spans[|spans| - 1].1 == |buf|)
  }

  lemma TakeChunks(c: Cutting, line: Text, max: nat)
    requires CountsWithin(c, max)
    ensures var placed, t := Place(c.counter, line, max).1, Take(c, line, max);
      && (placed.breakBefore || c.open == [] ==>
            t.Chunks() == c.Chunks() + [[line]] && TextOf([line], max) == placed.kept && (t.open == [] <==> placed.alone))
      && (!placed.breakBefore && c.open != [] ==>
            && !placed.alone && placed.kept == line && t.open == c.open + [line]
            && t.Chunks() == c.Chunks()[|c.Chunks()| - 1 := c.open + [line]]
            && TextOf(c.open + [line], max) == TextOf(c.open, max) + [NEWLINE] + line)
  {
    TakeShape(c, line, max);
    PlaceKeeps(c.counter, line, max);
    LineText(line, max);
    OpenFits(c, max);
    hide Take, Place, TextOf, CountsWithin, Size;
    if c.open != [] && Size(line) <= max { LongerText(c.open, line, max); }
  }

  lemma OpenFits(c: Cutting, max: nat)
    requires CountsWithin(c, max)
    ensures c.open != [] ==> AllFit(c.open, max)
  {
  }

  lemma LineText(line: Text, max: nat)
    ensures TextOf([line], max) == TruncateToByteLimit(line, max)
    ensures Size(line) <= max ==> TruncateToByteLimit(line, max) == line
  {
    TruncationKeeps(line, max);
    assert KeptOf([line], max) == [TruncateToByteLimit(line, max)];
  }

  lemma LongerText(open: seq<Text>, line: Text, max: nat)
    requires open != [] && AllFit(open, max) && Size(line) <= max
    ensures TextOf(open + [line], max) == TextOf(open, max) + [NEWLINE] + line
  {
    FittingIsKept(open, max);
    FittingIsKept(open + [line], max);
    JoinedOneMore(open, line);
  }

  lemma SpanStays(span: (nat, nat), buf: Text, text: Text, after: Text)
    requires SpanHolds(span, buf, text) && buf <= after
    ensures SpanHolds(span, after, text)
  {
  }

  lemma SpanOfLine(start: nat, after: Text, line: Text, kept: Text)
    requires start <= |after| && after[start..] == line && kept <= line
    ensures SpanHolds((start, start + |kept|), after, kept)
  {
    assert after[start..start + |kept|] == after[start..][..|kept|];
  }

  lemma SpanLonger(from: nat, buf: Text, text: Text, line: Text, after: Text)
    requires SpanHolds((from, |buf|), buf, text) && after == buf + [NEWLINE] + line
    ensures SpanHolds((from, |after|), after, text + [NEWLINE] + line)
  {
    assert after[from..|after|] == buf[from..|buf|] + [NEWLINE] + line;
  }

  lemma KeptIs(c: Counter, line: Text, max: nat)
    ensures Place(c, line, max).1.kept <= line
    ensures !Place(c, line, max).1.alone ==> Place(c, line, max).1.kept == line
  {
    TruncationKeeps(line, max);
  }

  /** A line that begins a chunk: a new span. */
  lemma SpansMore(spans: seq<(nat, nat)>, buf: Text, c: Cutting, line: Text, max: nat, start: nat, after: Text)
    requires CountsWithin(c, max) && SpansHold(spans, buf, c, max)
    requires start <= |after| && buf <= after && after[start..] == line
    requires Place(c.counter, line, max).1.breakBefore || c.open == []
    ensures SpansHold(spans + [(start, start + |Place(c.counter, line, max).1.kept|)], after, Take(c, line, max), max)
  {
    hide TextOf, CountsWithin, TruncateToByteLimit, SpanHolds, Place, Take;
    TakeChunks(c, line, max);
    KeptIs(c.counter, line, max);
    var kept := Place(c.counter, line, max).1.kept;
    forall n | 0 <= n < |spans| ensures SpanHolds(spans[n], after, TextOf(c.Chunks()[n], max)) {
      SpanStays(spans[n], buf, TextOf(c.Chunks()[n], max), after);
    }
    SpanOfLine(start, after, line, kept);
  }

  /** A line that joins the open chunk: its span is longer. */
  lemma SpansLonger(spans: seq<(nat, nat)>, buf: Text, c: Cutting, line: Text, max: nat, after: Text)
    requires CountsWithin(c, max) && SpansHold(spans, buf, c, max)
    requires after == buf + [NEWLINE] + line
    requires !Place(c.counter, line, max).1.breakBefore && c.open != []
    ensures SpansHold(spans[|spans| - 1 := (spans[|spans| - 1].0, |after|)], after, Take(c, line, max), max)
  {
    TakeChunks(c, line, max);
    hide Place, Take, TextOf, CountsWithin, SpanHolds;
    forall n | 0 <= n < |spans| - 1 ensures SpanHolds(spans[n], after, TextOf(c.Chunks()[n], max)) {
      SpanStays(spans[n], buf, TextOf(c.Chunks()[n], max), after);
    }
    SpanLonger(spans[|spans| - 1].0, buf, TextOf(c.open, max), line, after);
  }

  /** The window stands where the worker's cutting of the same lines does. */
  predicate Follows(buf: Text, lines: nat, counter: Counter, open: bool, spans: seq<(nat, nat)>, seen: seq<Text>, max: nat) {
    && buf == Joined(seen) && lines == |seen|
    && counter == Cut(seen, max).counter && open == (Cut(seen, max).open != [])
    && SpansHold(spans, buf, Cut(seen, max), max)
  }

  lemma FollowsOn(buf: Text, lines: nat, counter: Counter, open: bool, spans: seq<(nat, nat)>, seen: seq<Text>, max: nat,
                  line: Text, after: Text, spans': seq<(nat, nat)>)
    requires Follows(buf, lines, counter, open, spans, seen, max)
    requires after == (if lines > 0 then buf + [NEWLINE] else buf) + line
    requires var placed := Place(counter, line, max).1; var end := |after| - |line| + |placed.kept|;
      spans' == if placed.breakBefore || !open then spans + [(|after| - |line|, end)]
                else if spans == [] then spans
                else spans[|spans| - 1 := (spans[|spans| - 1].0, end)]
    ensures Follows(after, lines + 1, Place(counter, line, max).0, !Place(counter, line, max).1.alone, spans', seen + [line], max)
    ensures open ==> spans != []
  {
    hide Cut, CountsWithin, Sound, Joined, Place, Take, SpansHold;
    var c := Cut(seen, max);
    CutCounts(seen, max);
    CutOneMore(seen, line, max);
    JoinedOneMore(seen, line);
    TakeCounter(c, line, max);
    assert [] + [line] == [line];
    assert after[|after| - |line|..] == line;
    if open { SpansOpen(spans, buf, c, max); }
    if Place(counter, line, max).1.breakBefore || !open {
      SpansMore(spans, buf, c, line, max, |after| - |line|, after);
    } else {
      TakeChunks(c, line, max);
      SpansLonger(spans, buf, c, line, max, after);
    }
  }

  lemma SpansOpen(spans: seq<(nat, nat)>, buf: Text, c: Cutting, max: nat)
    requires SpansHold(spans, buf, c, max) && c.open != []
    ensures spans != []
  {
  }

  lemma CutCounts(lines: seq<Text>, max: nat)
    ensures CountsWithin(Cut(lines, max), max)
    ensures lines == [] ==> Cut(lines, max).open == [] && Joined(lines) == []
  {
    CutSound(lines, max);
  }

  lemma CutOneMore(lines: seq<Text>, line: Text, max: nat)
    ensures Cut(lines + [line], max) == Take(Cut(lines, max), line, max)
  {
    assert (lines + [line])[..|lines|] == lines;
  }

  lemma FollowsHolds(buf: Text, lines: nat, counter: Counter, open: bool, spans: seq<(nat, nat)>, seen: seq<Text>, max: nat)
    requires Follows(buf, lines, counter, open, spans, seen, max)
    ensures |spans| == |Cut(seen, max).Chunks()|
    ensures forall n :: 0 <= n < |spans| ==> SpanHolds(spans[n], buf, Texts(Cut(seen, max).Chunks(), max)[n])
  {
    hide Cut, SpanHolds, TextOf, Joined;
  }

  lemma TailGrows(whole: Text, base: nat, more: Text)
    requires base <= |whole|
    ensures whole[base..] + more == (whole + more)[base..]
  {
  }

  lemma FollowsJoined(buf: Text, lines: nat, counter: Counter, open: bool, spans: seq<(nat, nat)>, seen: seq<Text>, max: nat)
    requires Follows(buf, lines, counter, open, spans, seen, max)
    ensures buf == Joined(seen)
  {
  }

  lemma TakeCounter(c: Cutting, line: Text, max: nat)
    ensures Take(c, line, max).counter == Place(c.counter, line, max).0
    ensures (Take(c, line, max).open != []) == !Place(c.counter, line, max).1.alone
  {
  }

  /**
   * The tail of a text that is read block by block: `buf` begins at offset `base`, and what came
   * before has been let go. `seen` is history: all the lines the text is made of.
   */
  class TextWindow {
    var buf: Text
    var base: nat
    var lines: nat
    const cutter: ContentChunkCutter
    var chunkOpen: bool
    var chunks: seq<(nat, nat)>
    ghost var seen: seq<Text>

    ghost predicate Valid() reads this, cutter {
      && base <= |Joined(seen)| && buf == Joined(seen)[base..]
      && Follows(Joined(seen), lines, cutter.Value(), chunkOpen, chunks, seen, cutter.max)
    }

    constructor (max: nat)
      ensures Valid() && seen == [] && base == 0 && cutter.max == max && fresh(cutter)
    {
      cutter := new ContentChunkCutter(max);
      buf, base, lines, chunkOpen, chunks, seen := [], 0, 0, false, [], [];
    }

    function End(): nat reads this { base + |buf| }

    method AppendLine(line: Text)
      requires Valid()
      modifies this, cutter
      ensures Valid() && seen == old(seen) + [line] && base == old(base)
    {
      hide Follows, Place, Joined;
      ghost var whole := Joined(seen);
      ghost var before := if lines > 0 then whole + [NEWLINE] else whole;
      ghost var after := before + line;
      var placed := cutter.PlaceLine(line);
      ghost var end := |after| - |line| + |placed.kept|;
      ghost var spans := if placed.breakBefore || !chunkOpen then chunks + [(|after| - |line|, end)]
        else if chunks == [] then chunks
        else chunks[|chunks| - 1 := (chunks[|chunks| - 1].0, end)];
      FollowsOn(whole, lines, old(cutter.Value()), chunkOpen, chunks, seen, cutter.max, line, after, spans);
      FollowsJoined(after, lines + 1, cutter.Value(), !placed.alone, spans, seen + [line], cutter.max);
      TailGrows(whole, base, [NEWLINE]);
      TailGrows(before, base, line);
      if lines > 0 { buf := buf + [NEWLINE]; }
      lines := lines + 1;
      var lineStart := End();
      buf := buf + line;
      if placed.breakBefore || !chunkOpen {
        chunks := chunks + [(lineStart, lineStart)];
        chunkOpen := true;
      }
      chunks := chunks[|chunks| - 1 := (chunks[|chunks| - 1].0, lineStart + |placed.kept|)];
      assert chunks == spans;
      if placed.alone { chunkOpen := false; }
      seen := seen + [line];
    }

    /**
     * A block's lines are added; the spans then hold, chunk for chunk, what the worker writes of
     * them, in the offsets of the whole text, whatever of it has been let go.
     */
    method Append(block: Text)
      requires Valid()
      modifies this, cutter
      ensures Valid() && seen == old(seen) + IndexedLines(block) && base == old(base)
      ensures |chunks| == |Cut(seen, cutter.max).Chunks()|
      ensures forall n :: 0 <= n < |chunks| ==>
        SpanHolds(chunks[n], Joined(seen), Texts(Cut(seen, cutter.max).Chunks(), cutter.max)[n])
    {
      hide Cut, Follows, SpanHolds, Texts, IndexedLines, Joined;
      var added := IndexedLines(block);
      for i := 0 to |added|
        invariant Valid() && seen == old(seen) + added[..i] && base == old(base)
      {
        AppendLine(added[i]);
        assert added[..i + 1] == added[..i] + [added[i]];
      }
      assert added[..|added|] == added;
      FollowsHolds(Joined(seen), lines, cutter.Value(), chunkOpen, chunks, seen, cutter.max);
    }

    /** What is before `pos` is let go, and every offset keeps its meaning. */
    method DropBefore(pos: int)
      requires Valid() && pos <= End()
      modifies this`buf, this`base
      ensures Valid() && base == Max(old(base), pos) && End() == old(End())
    {
      hide Follows, Joined;
      if pos <= base { return; }
      buf := buf[pos - base..];
      base := pos;
    }

    /** A stretch not let go of is still to be had. */
    method Slice(start: nat, end: nat) returns (text: Text)
      requires Valid() && base <= start <= end <= End()
      ensures end <= |Joined(seen)| && text == Joined(seen)[start..end]
    {
      hide Follows, Joined;
      text := buf[start - base..end - base];
    }

    /** The first place from `from` on, of what is held. */
    method IndexOf(text: Text, from: nat) returns (at: Option<nat>)
      requires Valid() && text != []
      ensures IsFirst(Joined(seen), text, Max(from, base), at)
    {
      hide Follows, Joined;
      ghost var whole := Joined(seen);
      var i := Max(from, base) - base;
      while i + |text| <= |buf|
        invariant Max(from, base) <= base + i
        invariant forall k: nat :: Max(from, base) <= k < base + i ==> !StandsAt(whole, text, k)
      {
        assert base + i + |text| <= |whole| ==> whole[base + i..base + i + |text|] == buf[i..i + |text|];
        if buf[i..i + |text|] == text { return Some(base + i); }
        i := i + 1;
      }
      return None;
    }

    /**
     * A fragment is found in its chunk exactly if what the worker wrote of that chunk holds it,
     * and then where it first does, as long as nothing of the chunk has been let go.
     */
    method FindFragment(text: Text, n: nat) returns (found: Option<nat>)
      requires Valid() && text != [] && n < |chunks| && base <= chunks[n].0
      ensures n < |Cut(seen, cutter.max).Chunks()|
      ensures var chunk := Texts(Cut(seen, cutter.max).Chunks(), cutter.max)[n];
        && (found.Some? ==>
              var at := found.value - chunks[n].0; 0 <= at && at + |text| <= |chunk| && chunk[at..at + |text|] == text)
        && (forall a, b :: chunk == a + text + b ==> found.Some? && found.value <= chunks[n].0 + |a|)
    {
      hide Follows, Joined, Cut, Texts, IsFirst;
      FollowsHolds(Joined(seen), lines, cutter.Value(), chunkOpen, chunks, seen, cutter.max);
      var (start, end) := chunks[n];
      found := IndexOf(text, start);
      FirstWithin(Joined(seen), start, end, text, found);
      if found.Some? && found.value + |text| > end { found := None; }
      FirstMeans(Texts(Cut(seen, cutter.max).Chunks(), cutter.max)[n], text, if found.Some? then Some(found.value - start) else None);
    }
  }

  /** `text` stands at this place of the whole. */
  predicate StandsAt(whole: Text, text: Text, k: nat) {
    k + |text| <= |whole| && whole[k..k + |text|] == text
  }

  ghost predicate IsFirst(whole: Text, text: Text, from: nat, at: Option<nat>) {
    match at
    case None => forall k: nat :: from <= k ==> !StandsAt(whole, text, k)
    case Some(i) => from <= i && StandsAt(whole, text, i) && forall k: nat :: from <= k < i ==> !StandsAt(whole, text, k)
  }

  lemma FirstMeans(chunk: Text, text: Text, at: Option<nat>)
    requires IsFirst(chunk, text, 0, at)
    ensures at.Some? ==> at.value + |text| <= |chunk| && chunk[at.value..at.value + |text|] == text
    ensures forall a, b :: chunk == a + text + b ==> at.Some? && at.value <= |a|
  {
    forall a, b | chunk == a + text + b ensures StandsAt(chunk, text, |a|) {
      assert chunk[|a|..|a| + |text|] == text;
    }
  }

  /** The first place from a stretch's start on, if it is in the stretch, is the first in the stretch alone. */
  lemma FirstWithin(whole: Text, start: nat, end: nat, text: Text, at: Option<nat>)
    requires start <= end <= |whole| && IsFirst(whole, text, start, at)
    ensures at.Some? ==> start <= at.value
    ensures IsFirst(whole[start..end], text, 0, if at.Some? && at.value + |text| <= end then Some(at.value - start) else None)
  {
    var part := whole[start..end];
    forall k: nat ensures StandsAt(part, text, k) <==> StandsAt(whole, text, start + k) && start + k + |text| <= end {
      if start + k + |text| <= end { SliceOfSlice(whole, start, end, k, k + |text|); }
    }
    if at.Some? { assert StandsAt(part, text, at.value - start) <==> at.value + |text| <= end; }
  }

  lemma SliceOfSlice(whole: Text, start: nat, end: nat, a: nat, b: nat)
    requires start <= end <= |whole| && a <= b <= end - start
    ensures whole[start..end][a..b] == whole[start + a..start + b]
  {
    assert |whole[start..end][a..b]| == |whole[start + a..start + b]|;
    forall i | 0 <= i < b - a ensures whole[start..end][a..b][i] == whole[start + a..start + b][i] {}
  }
}
