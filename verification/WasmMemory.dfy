/**
 * Patching a WebAssembly binary so that its memories declare a maximum (ADR-065).
 *
 * Follows the binary format of the WebAssembly Core Specification 1.0: unsigned LEB128
 * integers (section 5.2.2), limits (5.3.4), sections (5.5.2) and the memory section (5.5.8).
 */
module WasmMemory {
  import opened Basics

  type Byte = b: int | 0 <= b < 256

  type Bytes = seq<Byte>

  // ---- unsigned LEB128 ----

  /** The integer a byte string begins with, and how many bytes it takes; none if it does not end. */
  function ReadU(s: Bytes): (r: Option<(nat, nat)>)
    ensures r.Some? ==> 1 <= r.value.1 <= |s|
  {
    if s == [] then None
    else if s[0] < 128 then Some((s[0], 1))
    else Carried(s[0], ReadU(s[1..]))
  }

  /** Seven bits below what the following bytes say. */
  function Carried(b: Byte, more: Option<(nat, nat)>): Option<(nat, nat)> {
    if more.None? then None else Some((b % 128 + 128 * more.value.0, 1 + more.value.1))
  }

  function ToU(value: nat): Bytes {
    if value < 128 then [value] else [value % 128 + 128] + ToU(value / 128)
  }

  /** Reading undoes writing, for every number and whatever follows it. */
  lemma {:induction false} ReadUndoesWrite(value: nat, rest: Bytes)
    ensures ReadU(ToU(value) + rest) == Some((value, |ToU(value)|))
  {
    if value >= 128 {
      ReadUndoesWrite(value / 128, rest);
      assert (ToU(value) + rest)[1..] == ToU(value / 128) + rest;
    } else {
      assert (ToU(value) + rest)[0] == value;
    }
  }

  lemma ReadStep(s: Bytes)
    requires ReadU(s).Some?
    ensures s != [] && (s[0] < 128 ==> ReadU(s) == Some((s[0], 1)))
    ensures s[0] >= 128 ==> ReadU(s) == Carried(s[0], ReadU(s[1..]))
  {
    hide Carried;
  }

  /** The reading loop: `shift` is counted in groups of seven bits. */
  method Uleb(bytes: array<Byte>, start: nat) returns (value: nat, at: nat)
    requires start <= bytes.Length && ReadU(bytes[..][start..]).Some?
    ensures ReadU(bytes[..][start..]) == Some((value, at - start))
    ensures start < at <= bytes.Length
  {
    value, at := 0, start;
    var scale: nat := 1;
    ghost var whole := ReadU(bytes[..][start..]).value;
    ghost var tail := whole;
    while true
      invariant start <= at < bytes.Length && ReadU(bytes[..][at..]) == Some(tail)
      invariant Splits(whole.0, value, scale, tail.0) && at + tail.1 == start + whole.1
      decreases bytes.Length - at
    {
      hide ReadU, Splits;
      var b := bytes[at];
      assert bytes[..][at..][1..] == bytes[..][at + 1..];
      ReadStep(bytes[..][at..]);
      at := at + 1;
      if b < 128 {
        SplitEnds(whole.0, value, scale, b);
        value := value + b * scale;
        return;
      }
      tail := ReadU(bytes[..][at..]).value;
      SplitGoesOn(whole.0, value, scale, b % 128, tail.0);
      value := value + b % 128 * scale;
      scale := scale * 128;
    }
  }

  /** What has been read and what is left make the whole. */
  predicate Splits(whole: nat, value: nat, scale: nat, rest: nat) {
    whole == value + scale * rest
  }

  lemma SplitEnds(whole: nat, value: nat, scale: nat, b: nat)
    requires Splits(whole, value, scale, b)
    ensures whole == value + b * scale
  {
  }

  lemma SplitGoesOn(whole: nat, value: nat, scale: nat, low: nat, high: nat)
    requires Splits(whole, value, scale, low + 128 * high)
    ensures Splits(whole, value + low * scale, scale * 128, high)
  {
  }

  method ToUleb(number: nat) returns (out: Bytes)
    ensures out == ToU(number)
  {
    out := [];
    var value := number;
    while true
      invariant out + ToU(value) == ToU(number)
      decreases value
    {
      var b := value % 128;
      value := value / 128;
      if value == 0 { return out + [b]; }
      out := out + [b + 128];
    }
  }

  // ---- sections ----

  /** A section as it stands: its id and size as written, then its contents. */
  datatype Section = Section(head: Bytes, body: Bytes)

  const MEMORY: Byte := 5

  predicate IsMemory(s: Section) { s.head != [] && s.head[0] == MEMORY }

  /** The section a byte string begins with, and how many bytes it takes; none if it does not end. */
  function FirstSection(s: Bytes): (r: Option<(Section, nat)>)
    requires s != []
    ensures r.Some? ==> 0 < r.value.1 <= |s|
  {
    var size := ReadU(s[1..]);
    if size.None? then None
    else
      var body := 1 + size.value.1;
      var next := body + size.value.0;
      if next > |s| then None else Some((Section(s[..body], s[body..next]), next))
  }

  function ParseSections(s: Bytes): Option<seq<Section>> {
    if s == [] then Some([])
    else
      var first := FirstSection(s);
      if first.None? then None else Preceded(first.value.0, ParseSections(s[first.value.1..]))
  }

  function Preceded(x: Section, rest: Option<seq<Section>>): Option<seq<Section>> {
    if rest.None? then None else Some([x] + rest.value)
  }

  function Print(sections: seq<Section>): Bytes {
    if sections == [] then [] else sections[0].head + sections[0].body + Print(sections[1..])
  }

  /** A section's head says its id and the size of what follows. */
  predicate HeadFits(s: Section) {
    s.head != [] && ReadU(s.head[1..]) == Some((|s.body|, |s.head| - 1))
  }

  lemma {:induction false} ReadPrefix(s: Bytes, t: Bytes)
    requires ReadU(s).Some?
    ensures ReadU(s + t) == ReadU(s)
    ensures ReadU(s[..ReadU(s).value.1]) == ReadU(s)
  {
    assert (s + t)[0] == s[0];
    if s[0] >= 128 {
      ReadPrefix(s[1..], t);
      var n := ReadU(s[1..]).value.1;
      assert (s + t)[1..] == s[1..] + t;
      assert s[..n + 1][1..] == s[1..][..n];
    }
  }

  /** Parsed sections fit their heads, and print back to the bytes they came from. */
  lemma {:induction false} PrintUndoesParse(s: Bytes)
    requires ParseSections(s).Some?
    ensures Print(ParseSections(s).value) == s
    ensures forall x :: x in ParseSections(s).value ==> HeadFits(x)
    decreases |s|
  {
    if s != [] {
      BeginsWith(s);
      hide FirstSection, HeadFits;
      PrintUndoesParse(s[FirstSection(s).value.1..]);
    }
  }

  lemma BeginsWith(s: Bytes)
    requires s != [] && FirstSection(s).Some?
    ensures var (x, next) := FirstSection(s).value; HeadFits(x) && s == x.head + x.body + s[next..]
  {
    ReadPrefix(s[1..], []);
    hide ReadU;
    var (x, next) := FirstSection(s).value;
    assert x.head[1..] == s[1..][..|x.head| - 1];
  }

  lemma FirstOfPrinted(x: Section, rest: Bytes)
    requires HeadFits(x)
    ensures FirstSection(x.head + x.body + rest) == Some((x, |x.head| + |x.body|))
  {
    var s := x.head + x.body + rest;
    ReadPrefix(x.head[1..], x.body + rest);
    hide ReadU;
    assert s[1..] == x.head[1..] + (x.body + rest);
    assert s[..|x.head|] == x.head && s[|x.head|..|x.head| + |x.body|] == x.body;
  }

  lemma ParseOne(x: Section, rest: Bytes)
    requires HeadFits(x)
    ensures ParseSections(x.head + x.body + rest) == Preceded(x, ParseSections(rest))
  {
    FirstOfPrinted(x, rest);
    hide FirstSection;
    assert (x.head + x.body + rest)[|x.head| + |x.body|..] == rest;
  }

  /** Sections that fit their heads parse back from their bytes. */
  lemma {:induction false} ParseUndoesPrint(sections: seq<Section>)
    requires forall x :: x in sections ==> HeadFits(x)
    ensures ParseSections(Print(sections)) == Some(sections)
  {
    if sections != [] {
      ParseUndoesPrint(sections[1..]);
      ParseOne(sections[0], Print(sections[1..]));
      assert sections == [sections[0]] + sections[1..];
    }
  }

  // ---- the memory section ----

  datatype Limits = Limits(min: nat, max: Option<nat>)

  datatype Error = NoMemorySection | UnexpectedFlags | MinimumAboveCeiling

  /** The bytes of one memory: flags, minimum and maybe maximum; none if they run out. */
  datatype Entry = Entry(limits: Limits, length: nat) | BadFlags

  function ParseEntry(s: Bytes): Option<Entry> {
    if s == [] then None
    else if s[0] > 1 then Some(BadFlags)
    else match ReadU(s[1..])
      case None => None
      case Some((min, m)) =>
        if s[0] == 0 then Some(Entry(Limits(min, None), 1 + m))
        else match ReadU(s[1 + m..])
          case None => None
          case Some((max, x)) => Some(Entry(Limits(min, Some(max)), 1 + m + x))
  }

  lemma EntryLength(s: Bytes)
    requires ParseEntry(s).Some? && ParseEntry(s).value.Entry?
    ensures 1 <= ParseEntry(s).value.length <= |s|
  {
  }

  /** The memories a body holds, or that a flag among them is not one this reads; none if they run out. */
  function ParseEntries(s: Bytes, count: nat): Option<Result<seq<Limits>, ()>> {
    if count == 0 then Some(Ok([]))
    else match ParseEntry(s)
      case None => None
      case Some(BadFlags) => Some(Err(()))
      case Some(Entry(limits, length)) =>
        EntryLength(s);
        match ParseEntries(s[length..], count - 1)
        case None => None
        case Some(Err(_)) => Some(Err(()))
        case Some(Ok(rest)) => Some(Ok([limits] + rest))
  }

  function ParseMemories(body: Bytes): Option<Result<seq<Limits>, ()>> {
    match ReadU(body)
    case None => None
    case Some((count, length)) => ParseEntries(body[length..], count)
  }

  function PrintEntry(l: Limits): Bytes {
    match l.max
    case None => [0] + ToU(l.min)
    case Some(max) => [1] + ToU(l.min) + ToU(max)
  }

  function PrintEntries(memories: seq<Limits>): Bytes {
    if memories == [] then [] else PrintEntry(memories[0]) + PrintEntries(memories[1..])
  }

  function PrintMemories(memories: seq<Limits>): Bytes {
    ToU(|memories|) + PrintEntries(memories)
  }

  lemma EntryRoundTrip(l: Limits, rest: Bytes)
    ensures ParseEntry(PrintEntry(l) + rest) == Some(Entry(l, |PrintEntry(l)|))
  {
    hide ReadU, ToU;
    var s := PrintEntry(l) + rest;
    match l.max
    case None =>
      ReadUndoesWrite(l.min, rest);
      assert s[1..] == ToU(l.min) + rest;
    case Some(max) =>
      ReadUndoesWrite(l.min, ToU(max) + rest);
      ReadUndoesWrite(max, rest);
      assert s[1..] == ToU(l.min) + (ToU(max) + rest);
      assert s[1 + |ToU(l.min)|..] == ToU(max) + rest;
  }

  lemma {:induction false} EntriesRoundTrip(memories: seq<Limits>, rest: Bytes)
    ensures ParseEntries(PrintEntries(memories) + rest, |memories|) == Some(Ok(memories))
  {
    hide ParseEntry, PrintEntry;
    if memories != [] {
      var l, more := memories[0], memories[1..];
      var s := PrintEntries(memories) + rest;
      assert memories == [l] + more;
      assert s == PrintEntry(l) + (PrintEntries(more) + rest);
      EntryRoundTrip(l, PrintEntries(more) + rest);
      assert s[|PrintEntry(l)|..] == PrintEntries(more) + rest;
      EntriesRoundTrip(more, rest);
    }
  }

  lemma MemoriesRoundTrip(memories: seq<Limits>)
    ensures ParseMemories(PrintMemories(memories)) == Some(Ok(memories))
  {
    ReadUndoesWrite(|memories|, PrintEntries(memories));
    EntriesRoundTrip(memories, []);
    assert PrintEntries(memories) + [] == PrintEntries(memories);
    assert PrintMemories(memories)[|ToU(|memories|)|..] == PrintEntries(memories);
  }

  // ---- capping, on what the bytes mean ----

  /** A memory keeps its minimum, under the smaller of its own maximum and the ceiling. */
  function CapOne(l: Limits, ceiling: nat): Result<Limits, Error> {
    var max: nat := if l.max.Some? then Min(l.max.value, ceiling) else ceiling;
    if l.min > max then Err(MinimumAboveCeiling) else Ok(Limits(l.min, Some(max)))
  }

  function CapAll(memories: seq<Limits>, ceiling: nat): Result<seq<Limits>, Error> {
    if memories == [] then Ok([])
    else match CapOne(memories[0], ceiling)
      case Err(e) => Err(e)
      case Ok(l) =>
        match CapAll(memories[1..], ceiling)
        case Err(e) => Err(e)
        case Ok(rest) => Ok([l] + rest)
  }

  /** The entries one by one, as they are read: a bad flag is only met past memories that fit. */
  function CapEntries(s: Bytes, count: nat, ceiling: nat): Option<Result<seq<Limits>, Error>> {
    if count == 0 then Some(Ok([]))
    else match ParseEntry(s)
      case None => None
      case Some(BadFlags) => Some(Err(UnexpectedFlags))
      case Some(Entry(limits, length)) =>
        EntryLength(s);
        match CapOne(limits, ceiling)
        case Err(e) => Some(Err(e))
        case Ok(l) =>
          match CapEntries(s[length..], count - 1, ceiling)
          case None => None
          case Some(Err(e)) => Some(Err(e))
          case Some(Ok(rest)) => Some(Ok([l] + rest))
  }

  /** Where the flags are in order, capping the entries as read is capping what they mean. */
  lemma {:induction false} CapsWhatIsRead(s: Bytes, count: nat, ceiling: nat)
    requires ParseEntries(s, count).Some? && ParseEntries(s, count).value.Ok?
    ensures CapEntries(s, count, ceiling) == Some(CapAll(ParseEntries(s, count).value.value, ceiling))
  {
    if count > 0 {
      var e := ParseEntry(s).value;
      EntryLength(s);
      CapsWhatIsRead(s[e.length..], count - 1, ceiling);
    }
  }

  function MemorySection(body: Bytes): Section {
    Section([MEMORY] + ToU(|body|), body)
  }

  function CapSections(sections: seq<Section>, ceiling: nat): Option<Result<seq<Section>, Error>>
    requires forall x :: x in sections ==> HeadFits(x)
  {
    if sections == [] then Some(Err(NoMemorySection))
    else if IsMemory(sections[0]) then
      match ReadU(sections[0].body)
      case None => None
      case Some((count, length)) =>
        match CapEntries(sections[0].body[length..], count, ceiling)
        case None => None
        case Some(Err(e)) => Some(Err(e))
        case Some(Ok(memories)) => Some(Ok([MemorySection(PrintMemories(memories))] + sections[1..]))
    else
      match CapSections(sections[1..], ceiling)
      case None => None
      case Some(Err(e)) => Some(Err(e))
      case Some(Ok(rest)) => Some(Ok([sections[0]] + rest))
  }

  const PREAMBLE: nat := 8

  /** A module whose sections can be walked: a preamble, then sections that end where they say. */
  predicate Walkable(bytes: Bytes) {
    |bytes| >= PREAMBLE && ParseSections(bytes[PREAMBLE..]).Some?
  }

  function SectionsOf(bytes: Bytes): (sections: seq<Section>)
    requires Walkable(bytes)
    ensures forall x :: x in sections ==> HeadFits(x)
  {
    PrintUndoesParse(bytes[PREAMBLE..]);
    ParseSections(bytes[PREAMBLE..]).value
  }

  /** What capping makes of a module; none where its memory section runs out of bytes. */
  function Capped(bytes: Bytes, ceiling: nat): Option<Result<Bytes, Error>>
    requires Walkable(bytes)
  {
    match CapSections(SectionsOf(bytes), ceiling)
    case None => None
    case Some(Err(e)) => Some(Err(e))
    case Some(Ok(sections)) => Some(Ok(bytes[..PREAMBLE] + Print(sections)))
  }

  // ---- what capping keeps ----

  /** The first memory section, at `i`, is capped; every other section is as it was. */
  ghost predicate CappedAt(before: seq<Section>, after: seq<Section>, i: nat, ceiling: nat)
    requires |before| == |after|
  {
    && i < |before|
    && IsMemory(before[i]) && (forall j :: 0 <= j < i ==> !IsMemory(before[j]))
    && (forall j :: 0 <= j < |before| && j != i ==> after[j] == before[j])
    && IsMemory(after[i]) && MemoriesCapped(before[i].body, after[i].body, ceiling)
  }

  ghost predicate OnlyCapped(before: seq<Section>, after: seq<Section>, ceiling: nat) {
    |before| == |after| && exists i: nat :: CappedAt(before, after, i, ceiling)
  }

  predicate MemoriesCapped(before: Bytes, after: Bytes, ceiling: nat) {
    var b, a := ParseMemories(before), ParseMemories(after);
    b.Some? && a.Some? && b.value.Ok? && a.value.Ok? && CapAll(b.value.value, ceiling) == Ok(a.value.value)
  }

  /** Every memory section of the module can be read: its flags are in order and its bytes suffice. */
  predicate WellFormed(bytes: Bytes) {
    && Walkable(bytes)
    && forall x :: x in SectionsOf(bytes) && IsMemory(x) ==> ParseMemories(x.body).Some? && ParseMemories(x.body).value.Ok?
  }

  predicate Readable(sections: seq<Section>) {
    && (forall x :: x in sections ==> HeadFits(x))
    && (forall x :: x in sections && IsMemory(x) ==> ParseMemories(x.body).Some? && ParseMemories(x.body).value.Ok?)
  }

  lemma MemorySectionFits(body: Bytes)
    ensures HeadFits(MemorySection(body)) && IsMemory(MemorySection(body))
  {
    ReadUndoesWrite(|body|, []);
    assert ToU(|body|) + [] == ToU(|body|);
    assert MemorySection(body).head[1..] == ToU(|body|);
  }

  lemma BodyCapped(body: Bytes, ceiling: nat)
    requires ParseMemories(body).Some? && ParseMemories(body).value.Ok?
    ensures ReadU(body).Some?
    ensures CapEntries(body[ReadU(body).value.1..], ReadU(body).value.0, ceiling)
      == Some(CapAll(ParseMemories(body).value.value, ceiling))
  {
    var (count, length) := ReadU(body).value;
    CapsWhatIsRead(body[length..], count, ceiling);
  }

  lemma {:induction false} SectionsCapped(sections: seq<Section>, ceiling: nat)
    requires Readable(sections)
    ensures CapSections(sections, ceiling).Some?
    ensures var r := CapSections(sections, ceiling).value;
      r.Ok? ==> (forall x :: x in r.value ==> HeadFits(x)) && OnlyCapped(sections, r.value, ceiling)
  {
    if sections != [] {
      var x, rest := sections[0], sections[1..];
      assert sections == [x] + rest;
      hide HeadFits, ParseMemories, PrintMemories, CapAll, ReadU, CappedAt, MemoriesCapped;
      if IsMemory(x) {
        BodyCapped(x.body, ceiling);
        var capped := CapAll(ParseMemories(x.body).value.value, ceiling);
        if capped.Ok? {
          MemorySectionFits(PrintMemories(capped.value));
          CappedFirst(sections, capped.value, ceiling);
        }
      } else {
        SectionsCapped(rest, ceiling);
        var r := CapSections(rest, ceiling).value;
        if r.Ok? {
          var i: nat :| CappedAt(rest, r.value, i, ceiling);
          CappedLater(sections, r.value, i, ceiling);
        }
      }
    }
  }

  lemma CappedFirst(sections: seq<Section>, memories: seq<Limits>, ceiling: nat)
    requires sections != [] && IsMemory(sections[0])
    requires ParseMemories(sections[0].body).Some? && ParseMemories(sections[0].body).value.Ok?
    requires CapAll(ParseMemories(sections[0].body).value.value, ceiling) == Ok(memories)
    ensures CappedAt(sections, [MemorySection(PrintMemories(memories))] + sections[1..], 0, ceiling)
  {
    MemorySectionFits(PrintMemories(memories));
    MemoriesRoundTrip(memories);
    hide CapAll, ParseMemories, PrintMemories, HeadFits;
    var after := [MemorySection(PrintMemories(memories))] + sections[1..];
    assert after[0].body == PrintMemories(memories);
    assert MemoriesCapped(sections[0].body, after[0].body, ceiling);
  }

  lemma CappedLater(sections: seq<Section>, after: seq<Section>, i: nat, ceiling: nat)
    requires sections != [] && !IsMemory(sections[0]) && |after| == |sections| - 1
    requires CappedAt(sections[1..], after, i, ceiling)
    ensures CappedAt(sections, [sections[0]] + after, i + 1, ceiling)
  {
    hide MemoriesCapped, IsMemory;
    assert sections[i + 1] == sections[1..][i];
  }

  /**
   * Capping preserves the module: where it is not refused, the result has the same preamble
   * and parses to the same sections in the same order with the same bytes, except that the
   * memory section's memories are capped.
   */
  lemma CappingPreserves(bytes: Bytes, ceiling: nat)
    requires WellFormed(bytes)
    ensures Capped(bytes, ceiling).Some?
    ensures var r := Capped(bytes, ceiling).value; r.Ok? ==>
      Walkable(r.value) && r.value[..PREAMBLE] == bytes[..PREAMBLE]
      && OnlyCapped(SectionsOf(bytes), SectionsOf(r.value), ceiling)
  {
    var sections := SectionsOf(bytes);
    SectionsCapped(sections, ceiling);
    var r := CapSections(sections, ceiling).value;
    if r.Ok? {
      ParseUndoesPrint(r.value);
      var out := bytes[..PREAMBLE] + Print(r.value);
      assert out[PREAMBLE..] == Print(r.value) && out[..PREAMBLE] == bytes[..PREAMBLE];
    }
  }

  predicate MinimaFit(memories: seq<Limits>, ceiling: nat) {
    forall l :: l in memories ==> l.min <= ceiling && (l.max.Some? ==> l.min <= l.max.value)
  }

  /** A memory section is refused exactly when a minimum is above its ceiling; else each keeps its minimum. */
  lemma {:induction false} CapAllMeans(memories: seq<Limits>, ceiling: nat)
    ensures CapAll(memories, ceiling).Ok? <==> MinimaFit(memories, ceiling)
    ensures CapAll(memories, ceiling).Ok? ==>
      && |CapAll(memories, ceiling).value| == |memories|
      && forall i :: 0 <= i < |memories| ==>
           var l, capped := memories[i], CapAll(memories, ceiling).value[i];
           && capped.min == l.min && capped.max.Some?
           && capped.max.value == if l.max.Some? then Min(l.max.value, ceiling) else ceiling
    ensures CapAll(memories, ceiling).Err? ==> CapAll(memories, ceiling).error == MinimumAboveCeiling
  {
    if memories != [] {
      CapAllMeans(memories[1..], ceiling);
      assert memories == [memories[0]] + memories[1..];
    }
  }

  /** The first memory section, at `i`, can take the ceiling. */
  predicate FirstFits(sections: seq<Section>, i: nat, ceiling: nat) {
    && i < |sections| && IsMemory(sections[i]) && (forall j :: 0 <= j < i ==> !IsMemory(sections[j]))
    && ParseMemories(sections[i].body).Some? && ParseMemories(sections[i].body).value.Ok?
    && MinimaFit(ParseMemories(sections[i].body).value.value, ceiling)
  }

  lemma {:induction false} SectionsRefused(sections: seq<Section>, ceiling: nat)
    requires Readable(sections)
    ensures CapSections(sections, ceiling).Some?
    ensures CapSections(sections, ceiling).value.Ok? <==> exists i: nat :: FirstFits(sections, i, ceiling)
  {
    if sections != [] {
      var x, rest := sections[0], sections[1..];
      assert sections == [x] + rest;
      hide HeadFits, ParseMemories, PrintMemories, CapAll, ReadU, MinimaFit;
      if IsMemory(x) {
        BodyCapped(x.body, ceiling);
        CapAllMeans(ParseMemories(x.body).value.value, ceiling);
        assert forall i: nat :: FirstFits(sections, i, ceiling) ==> i == 0;
        assert FirstFits(sections, 0, ceiling) <==> MinimaFit(ParseMemories(x.body).value.value, ceiling);
      } else {
        SectionsRefused(rest, ceiling);
        assert forall i: nat :: FirstFits(rest, i, ceiling) ==> FirstFits(sections, i + 1, ceiling);
        assert forall i: nat :: FirstFits(sections, i, ceiling) ==> i > 0 && FirstFits(rest, i - 1, ceiling);
      }
    }
  }

  /** A well-formed module is refused exactly when it has no memory section or a minimum above its ceiling. */
  lemma CappingRefuses(bytes: Bytes, ceiling: nat)
    requires WellFormed(bytes)
    ensures Capped(bytes, ceiling).Some?
    ensures Capped(bytes, ceiling).value.Ok? <==> exists i: nat :: FirstFits(SectionsOf(bytes), i, ceiling)
  {
    SectionsRefused(SectionsOf(bytes), ceiling);
  }

  // ---- capping composes ----

  lemma {:induction false} CapAllComposes(memories: seq<Limits>, m1: nat, m2: nat)
    ensures CapAll(memories, m1).Err? ==> CapAll(memories, Min(m1, m2)).Err?
    ensures CapAll(memories, m1).Ok? ==>
      var again, once := CapAll(CapAll(memories, m1).value, m2), CapAll(memories, Min(m1, m2));
      (again.Ok? <==> once.Ok?) && (once.Ok? ==> again == once)
  {
    if memories != [] { CapAllComposes(memories[1..], m1, m2); }
  }

  /** One memory section, capped twice. */
  lemma HeadComposes(x: Section, rest: seq<Section>, m1: nat, m2: nat)
    requires Readable([x] + rest) && IsMemory(x)
    ensures var first, once := CapSections([x] + rest, m1), CapSections([x] + rest, Min(m1, m2));
      && first.Some? && once.Some? && (first.value.Err? ==> once.value.Err?)
      && (first.value.Ok? ==>
            && Readable(first.value.value)
            && var again := CapSections(first.value.value, m2);
               again.Some? && (again.value.Ok? <==> once.value.Ok?) && (once.value.Ok? ==> again == once))
  {
    assert x in [x] + rest && ([x] + rest)[1..] == rest;
    forall y | y in rest ensures y in [x] + rest {}
    BodyCapped(x.body, m1);
    BodyCapped(x.body, Min(m1, m2));
    var memories := ParseMemories(x.body).value.value;
    CapAllComposes(memories, m1, m2);
    var first := CapAll(memories, m1);
    if first.Ok? {
      var y := MemorySection(PrintMemories(first.value));
      MemorySectionFits(PrintMemories(first.value));
      MemoriesRoundTrip(first.value);
      BodyCapped(y.body, m2);
      hide HeadFits, ParseMemories, PrintMemories, CapAll, ReadU, CapEntries;
      assert ([y] + rest)[1..] == rest;
    }
  }

  lemma {:induction false} SectionsCompose(sections: seq<Section>, m1: nat, m2: nat)
    requires Readable(sections)
    ensures var first, once := CapSections(sections, m1), CapSections(sections, Min(m1, m2));
      && first.Some? && once.Some? && (first.value.Err? ==> once.value.Err?)
      && (first.value.Ok? ==>
            && Readable(first.value.value)
            && var again := CapSections(first.value.value, m2);
               again.Some? && (again.value.Ok? <==> once.value.Ok?) && (once.value.Ok? ==> again == once))
  {
    if sections != [] {
      var x, rest := sections[0], sections[1..];
      assert sections == [x] + rest;
      if IsMemory(x) {
        HeadComposes(x, rest, m1, m2);
      } else {
        SectionsCompose(rest, m1, m2);
        var first := CapSections(rest, m1).value;
        hide HeadFits, ParseMemories, ReadU, CapEntries;
        if first.Ok? { assert ([x] + first.value)[1..] == first.value; }
      }
    }
  }

  lemma PrintedIsRead(preamble: Bytes, sections: seq<Section>)
    requires |preamble| == PREAMBLE && Readable(sections)
    ensures WellFormed(preamble + Print(sections)) && SectionsOf(preamble + Print(sections)) == sections
  {
    ParseUndoesPrint(sections);
    assert (preamble + Print(sections))[PREAMBLE..] == Print(sections);
  }

  /**
   * Capping at one ceiling and then another gives, byte for byte, what capping at the smaller
   * gives, and is refused exactly when that is; so capping twice at one ceiling changes
   * nothing the first did not.
   */
  lemma CappingComposes(bytes: Bytes, m1: nat, m2: nat)
    requires WellFormed(bytes)
    ensures Capped(bytes, m1).Some? && Capped(bytes, Min(m1, m2)).Some?
    ensures var first, once := Capped(bytes, m1).value, Capped(bytes, Min(m1, m2)).value;
      && (first.Err? ==> once.Err?)
      && (first.Ok? ==>
            && WellFormed(first.value) && Capped(first.value, m2).Some?
            && var again := Capped(first.value, m2).value;
               (again.Ok? <==> once.Ok?) && (once.Ok? ==> again == once))
  {
    var sections := SectionsOf(bytes);
    SectionsCompose(sections, m1, m2);
    var first := CapSections(sections, m1).value;
    if first.Ok? {
      PrintedIsRead(bytes[..PREAMBLE], first.value);
      assert (bytes[..PREAMBLE] + Print(first.value))[..PREAMBLE] == bytes[..PREAMBLE];
    }
  }

  // ---- the loops ----

  /** What is done of a list, before what remains of it. */
  function Before<T>(done: seq<T>, rest: Option<Result<seq<T>, Error>>): Option<Result<seq<T>, Error>> {
    match rest
    case Some(Ok(more)) => Some(Ok(done + more))
    case _ => rest
  }

  lemma {:induction false} EntriesPrefix(s: Bytes, t: Bytes, count: nat, ceiling: nat)
    requires CapEntries(s, count, ceiling).Some?
    ensures CapEntries(s + t, count, ceiling) == CapEntries(s, count, ceiling)
  {
    if count > 0 {
      EntryPrefix(s, t);
      var e := ParseEntry(s).value;
      if e.Entry? {
        EntryLength(s);
        assert (s + t)[e.length..] == s[e.length..] + t;
        if CapOne(e.limits, ceiling).Ok? { EntriesPrefix(s[e.length..], t, count - 1, ceiling); }
      }
    }
  }

  lemma EntryPrefix(s: Bytes, t: Bytes)
    requires ParseEntry(s).Some?
    ensures ParseEntry(s + t) == ParseEntry(s)
  {
    assert (s + t)[0] == s[0];
    if s[0] <= 1 {
      var m := ReadU(s[1..]).value.1;
      ReadPrefix(s[1..], t);
      assert (s + t)[1..] == s[1..] + t;
      if s[0] == 1 {
        ReadPrefix(s[1 + m..], t);
        assert (s + t)[1 + m..] == s[1 + m..] + t;
      }
    }
  }

  lemma {:induction false} CapEntriesLength(s: Bytes, count: nat, ceiling: nat)
    ensures match CapEntries(s, count, ceiling)
      case Some(Ok(memories)) => |memories| == count
      case _ => true
  {
    if count > 0 && ParseEntry(s).Some? && ParseEntry(s).value.Entry? {
      EntryLength(s);
      CapEntriesLength(s[ParseEntry(s).value.length..], count - 1, ceiling);
    }
  }

  lemma {:induction false} PrintLonger(done: seq<Limits>, l: Limits)
    ensures PrintEntries(done + [l]) == PrintEntries(done) + PrintEntry(l)
  {
    if done == [] {
      assert PrintEntries([l]) == PrintEntry(l) + [];
    } else {
      assert (done + [l])[1..] == done[1..] + [l];
      PrintLonger(done[1..], l);
    }
  }

  /** Read one entry: `p` moves past it. */
  method ReadEntry(bytes: array<Byte>, start: nat, maxPages: nat) returns (r: Result<Limits, Error>, p: nat)
    requires start <= bytes.Length && ParseEntry(bytes[..][start..]).Some?
    ensures match ParseEntry(bytes[..][start..]).value
      case BadFlags => r == Err(UnexpectedFlags)
      case Entry(limits, length) => r == CapOne(limits, maxPages) && (r.Ok? ==> p == start + length)
  {
    hide ReadU;
    p := start;
    var flags := bytes[p];
    p := p + 1;
    if flags != 0 && flags != 1 { return Err(UnexpectedFlags), p; }
    assert bytes[..][start..][1..] == bytes[..][p..];
    var min;
    min, p := Uleb(bytes, p);
    var max := maxPages;
    if flags == 1 {
      assert bytes[..][start..][p - start..] == bytes[..][p..];
      var declared;
      declared, p := Uleb(bytes, p);
      max := Min(declared, maxPages);
    }
    if min > max { return Err(MinimumAboveCeiling), p; }
    return Ok(Limits(min, Some(max))), p;
  }

  lemma EntryStep(s: Bytes, count: nat, ceiling: nat, done: seq<Limits>)
    requires count > 0 && CapEntries(s, count, ceiling).Some?
    ensures ParseEntry(s).Some?
    ensures match ParseEntry(s).value
      case BadFlags => CapEntries(s, count, ceiling) == Some(Err(UnexpectedFlags))
      case Entry(limits, length) =>
        match CapOne(limits, ceiling)
        case Err(e) => CapEntries(s, count, ceiling) == Some(Err(e))
        case Ok(l) =>
          && length <= |s| && CapEntries(s[length..], count - 1, ceiling).Some?
          && Before(done, CapEntries(s, count, ceiling)) == Before(done + [l], CapEntries(s[length..], count - 1, ceiling))
  {
    var e := ParseEntry(s).value;
    if e.Entry? && CapOne(e.limits, ceiling).Ok? {
      EntryLength(s);
      var l := CapOne(e.limits, ceiling).value;
      var rest := CapEntries(s[e.length..], count - 1, ceiling).value;
      if rest.Ok? { assert done + ([l] + rest.value) == (done + [l]) + rest.value; }
    }
  }

  lemma NoEntries(s: Bytes, ceiling: nat)
    ensures CapEntries(s, 0, ceiling) == Some(Ok([]))
  {
  }

  /** The new contents of a memory section that begins at `body`. */
  method CapBody(bytes: array<Byte>, body: nat, maxPages: nat) returns (r: Result<Bytes, Error>)
    requires body <= bytes.Length && ReadU(bytes[..][body..]).Some?
    requires var (count, length) := ReadU(bytes[..][body..]).value;
      CapEntries(bytes[..][body..][length..], count, maxPages).Some?
    ensures var (count, length) := ReadU(bytes[..][body..]).value;
      match CapEntries(bytes[..][body..][length..], count, maxPages).value
      case Ok(memories) => r == Ok(PrintMemories(memories))
      case Err(e) => r == Err(e)
  {
    hide ReadU, ToU, CapEntries, ParseEntry, PrintEntry, CapOne;
    var count, p := Uleb(bytes, body);
    assert bytes[..][body..][p - body..] == bytes[..][p..];
    var out := ToUleb(count);
    ghost var whole := CapEntries(bytes[..][p..], count, maxPages);
    ghost var done: seq<Limits> := [];
    CapEntriesLength(bytes[..][p..], count, maxPages);
    assert PrintEntries([]) == [];
    if whole.value.Ok? { assert [] + whole.value.value == whole.value.value; }
    var i := 0;
    while i < count
      invariant 0 <= i <= count && p <= bytes.Length && |done| == i
      invariant CapEntries(bytes[..][p..], count - i, maxPages).Some?
      invariant whole == Before(done, CapEntries(bytes[..][p..], count - i, maxPages))
      invariant out == ToU(count) + PrintEntries(done)
    {
      EntryStep(bytes[..][p..], count - i, maxPages, done);
      ghost var at := p;
      var entry;
      entry, p := ReadEntry(bytes, p, maxPages);
      match entry {
        case Err(e) => return Err(e);
        case Ok(l) =>
          assert bytes[..][at..][p - at..] == bytes[..][p..];
          PrintLonger(done, l);
          PrintedWithMaximum(l, ParseEntry(bytes[..][at..]).value.limits, maxPages);
          done := done + [l];
          var min := ToUleb(l.min);
          var max := ToUleb(l.max.value);
          out := out + [1] + min + max;
          i := i + 1;
      }
    }
    NoEntries(bytes[..][p..], maxPages);
    assert done + [] == done;
    r := Ok(out);
  }

  lemma PrintedWithMaximum(l: Limits, from: Limits, ceiling: nat)
    requires CapOne(from, ceiling) == Ok(l)
    ensures l.max.Some? && PrintEntry(l) == [1] + ToU(l.min) + ToU(l.max.value)
  {
  }

  lemma {:induction false} PrintConcat(a: seq<Section>, b: seq<Section>)
    ensures Print(a + b) == Print(a) + Print(b)
  {
    if a == [] {
      assert a + b == b;
    } else {
      assert (a + b)[1..] == a[1..] + b;
      PrintConcat(a[1..], b);
    }
  }

  /** A new array with the bytes before `at`, a section, and the bytes from `next` on. */
  method Splice(bytes: array<Byte>, at: nat, section: Bytes, next: nat) returns (patched: array<Byte>)
    requires at <= next <= bytes.Length
    ensures fresh(patched) && patched[..] == bytes[..][..at] + section + bytes[..][next..]
  {
    patched := new Byte[at + |section| + (bytes.Length - next)];
    forall i | 0 <= i < at { patched[i] := bytes[i]; }
    forall i | 0 <= i < |section| { patched[at + i] := section[i]; }
    forall i | next <= i < bytes.Length { patched[at + |section| + (i - next)] := bytes[i]; }
    ghost var want := bytes[..][..at] + section + bytes[..][next..];
    assert |want| == patched.Length;
    forall i | 0 <= i < patched.Length ensures patched[i] == want[i] {
      if i >= at + |section| {
        var j := i - at - |section| + next;
        assert patched[at + |section| + (j - next)] == bytes[j];
      } else if i >= at {
        assert patched[at + (i - at)] == section[i - at];
      }
    }
  }

  /** The walk has come to `at`: sections `done` behind it, none of them memory, `rest` ahead. */
  ghost predicate Walked(s: Bytes, at: nat, done: seq<Section>, rest: seq<Section>) {
    && PREAMBLE <= at <= |s|
    && ParseSections(s[at..]) == Some(rest) && s[PREAMBLE..at] == Print(done)
    && (forall x :: x in done ==> HeadFits(x) && !IsMemory(x))
    && (forall x :: x in rest ==> HeadFits(x))
  }

  lemma DropDrop<T>(s: seq<T>, a: nat, b: nat)
    requires a + b <= |s|
    ensures s[a..][b..] == s[a + b..]
  {
  }

  lemma DropSlice<T>(s: seq<T>, a: nat, b: nat, c: nat)
    requires b <= c && a + c <= |s|
    ensures s[a..][b..c] == s[a + b..a + c]
  {
  }

  /** The section at `at` is first of `rest`, its body from `body` to `next`. */
  predicate Lies(s: Bytes, at: nat, body: nat, next: nat, rest: seq<Section>) {
    && at < body <= next <= |s| && ParseSections(s[next..]).Some?
    && rest == [Section(s[at..body], s[body..next])] + ParseSections(s[next..]).value
  }

  lemma ParsedHead(s: Bytes)
    requires s != [] && ParseSections(s).Some?
    ensures FirstSection(s).Some? && ParseSections(s[FirstSection(s).value.1..]).Some?
    ensures ParseSections(s).value == [FirstSection(s).value.0] + ParseSections(s[FirstSection(s).value.1..]).value
  {
    hide FirstSection;
  }

  lemma HeadReads(s: Bytes)
    requires s != [] && ParseSections(s).Some?
    ensures ReadU(s[1..]).Some?
  {
    hide ReadU;
  }

  lemma FirstIs(s: Bytes, size: nat, length: nat)
    requires s != [] && ReadU(s[1..]) == Some((size, length)) && FirstSection(s).Some?
    ensures 1 + length + size <= |s|
    ensures FirstSection(s).value == (Section(s[..1 + length], s[1 + length..1 + length + size]), 1 + length + size)
  {
    hide ReadU;
  }

  lemma HeadLies(s: Bytes, size: nat, length: nat)
    requires s != [] && ParseSections(s).Some? && ReadU(s[1..]) == Some((size, length))
    ensures Lies(s, 0, 1 + length, 1 + length + size, ParseSections(s).value)
  {
    hide ReadU, ParseSections, FirstSection;
    ParsedHead(s);
    FirstIs(s, size, length);
    assert s[0..1 + length] == s[..1 + length];
  }

  lemma LiesFurther(s: Bytes, at: nat, body: nat, next: nat, rest: seq<Section>)
    requires at <= |s| && Lies(s[at..], 0, body, next, rest)
    ensures Lies(s, at, at + body, at + next, rest)
  {
    hide ParseSections;
    DropSlice(s, at, 0, body);
    DropSlice(s, at, body, next);
    DropDrop(s, at, next);
  }

  lemma HeadAt(s: Bytes, at: nat, body: nat, size: nat)
    requires at < |s| && ParseSections(s[at..]).Some? && body > at && ReadU(s[at + 1..]) == Some((size, body - at - 1))
    ensures Lies(s, at, body, body + size, ParseSections(s[at..]).value)
  {
    hide ReadU, ParseSections, Lies;
    DropDrop(s, at, 1);
    HeadLies(s[at..], size, body - at - 1);
    LiesFurther(s, at, body - at, body - at + size, ParseSections(s[at..]).value);
  }

  lemma LiesWithin(s: Bytes, at: nat, body: nat, next: nat, rest: seq<Section>)
    requires Lies(s, at, body, next, rest)
    ensures at < body <= next <= |s| && |rest| > 0 && |rest[0].head| > 0 && rest[0].head[0] == s[at]
    ensures s[next..] == Print(rest[1..]) && (IsMemory(rest[0]) <==> s[at] == MEMORY)
  {
    PrintUndoesParse(s[next..]);
    hide ParseSections;
    assert rest[1..] == ParseSections(s[next..]).value;
  }

  /** Past a section that is not memory. */
  lemma WalkOn(s: Bytes, at: nat, body: nat, next: nat, done: seq<Section>, rest: seq<Section>)
    requires Walked(s, at, done, rest) && Lies(s, at, body, next, rest) && !IsMemory(rest[0])
    ensures Walked(s, next, done + [rest[0]], rest[1..])
  {
    hide HeadFits, IsMemory, ParseSections, ReadU;
    assert rest[1..] == ParseSections(s[next..]).value;
    PrintConcat(done, [rest[0]]);
    assert Print([rest[0]]) == rest[0].head + rest[0].body + [];
    assert s[PREAMBLE..next] == s[PREAMBLE..at] + (s[at..body] + s[body..next]);
  }

  lemma WalkEnds(s: Bytes, done: seq<Section>, rest: seq<Section>, ceiling: nat)
    requires Walked(s, |s|, done, rest) && Owes(s, done, rest, ceiling)
    ensures Walkable(s) && Capped(s, ceiling) == Some(Err(NoMemorySection))
  {
    hide Capped, Walkable;
  }

  lemma WalkWithin(s: Bytes, at: nat, done: seq<Section>, rest: seq<Section>)
    requires Walked(s, at, done, rest)
    ensures PREAMBLE <= at <= |s| && ParseSections(s[at..]) == Some(rest) && s[PREAMBLE..at] == Print(done)
  {
  }

  /** Reading on past the end of a body that suffices reads the same. */
  lemma BodyAsRead(s: Bytes, body: nat, next: nat, ceiling: nat)
    requires body <= next <= |s| && ReadU(s[body..next]).Some?
    requires var (count, length) := ReadU(s[body..next]).value;
      CapEntries(s[body..next][length..], count, ceiling).Some?
    ensures ReadU(s[body..]) == ReadU(s[body..next])
    ensures var (count, length) := ReadU(s[body..next]).value;
      CapEntries(s[body..][length..], count, ceiling) == CapEntries(s[body..next][length..], count, ceiling)
  {
    var head, tail := s[body..next], s[next..];
    var (count, length) := ReadU(head).value;
    assert s[body..] == head + tail;
    ReadPrefix(head, tail);
    hide ReadU, CapEntries;
    EntriesPrefix(head[length..], tail, count, ceiling);
    assert (head + tail)[length..] == head[length..] + tail;
  }

  /** What the new contents have to be, when the memory section lies at `at`. */
  lemma PatchOf(s: Bytes, at: nat, body: nat, next: nat, rest: seq<Section>, ceiling: nat)
    requires Lies(s, at, body, next, rest) && (forall x :: x in rest ==> HeadFits(x))
    requires IsMemory(rest[0]) && CapSections(rest, ceiling).Some?
    ensures ReadU(s[body..]).Some?
    ensures var (count, length) := ReadU(s[body..]).value;
      && CapEntries(s[body..][length..], count, ceiling).Some?
      && CapSections(rest, ceiling) ==
           match CapEntries(s[body..][length..], count, ceiling).value
           case Err(e) => Some(Err(e))
           case Ok(memories) => Some(Ok([MemorySection(PrintMemories(memories))] + rest[1..]))
  {
    hide CapEntries, ReadU, HeadFits, PrintMemories, ParseSections;
    assert rest[0].body == s[body..next];
    BodyAsRead(s, body, next, ceiling);
  }

  /** The bytes with one section replaced are the sections printed with that one replaced. */
  lemma Spliced(s: Bytes, at: nat, next: nat, done: seq<Section>, section: Section, rest: seq<Section>)
    requires PREAMBLE <= at <= next <= |s| && s[PREAMBLE..at] == Print(done) && s[next..] == Print(rest)
    ensures s[..at] + (section.head + section.body) + s[next..]
      == s[..PREAMBLE] + Print(done + ([section] + rest))
  {
    PrintConcat(done, [section] + rest);
    assert ([section] + rest)[1..] == rest;
    assert Print([section] + rest) == section.head + section.body + Print(rest);
    assert s[..at] == s[..PREAMBLE] + s[PREAMBLE..at];
  }

  function Assembled(preamble: Bytes, done: seq<Section>, rest: Result<seq<Section>, Error>): Result<Bytes, Error> {
    match rest
    case Err(e) => Err(e)
    case Ok(sections) => Ok(preamble + Print(done + sections))
  }

  /** What the walk has to come to from here, done and rest put together again. */
  ghost predicate Owes(s: Bytes, done: seq<Section>, rest: seq<Section>, ceiling: nat) {
    && Walkable(s) && (forall x :: x in rest ==> HeadFits(x)) && CapSections(rest, ceiling).Some?
    && Capped(s, ceiling) == Some(Assembled(s[..PREAMBLE], done, CapSections(rest, ceiling).value))
  }

  lemma OwesMeans(s: Bytes, done: seq<Section>, rest: seq<Section>, ceiling: nat)
    requires Owes(s, done, rest, ceiling)
    ensures Walkable(s) && (forall x :: x in rest ==> HeadFits(x)) && CapSections(rest, ceiling).Some?
    ensures Capped(s, ceiling) == Some(Assembled(s[..PREAMBLE], done, CapSections(rest, ceiling).value))
  {
    hide CapSections, HeadFits, Capped, Walkable;
  }

  lemma OwesAtFirst(s: Bytes, ceiling: nat)
    requires Walkable(s) && Capped(s, ceiling).Some?
    ensures Owes(s, [], SectionsOf(s), ceiling)
  {
    var r := CapSections(SectionsOf(s), ceiling).value;
    if r.Ok? { assert [] + r.value == r.value; }
  }

  lemma OwesOn(s: Bytes, done: seq<Section>, rest: seq<Section>, ceiling: nat)
    requires Owes(s, done, rest, ceiling) && rest != [] && !IsMemory(rest[0])
    ensures Owes(s, done + [rest[0]], rest[1..], ceiling)
  {
    hide HeadFits, IsMemory, Capped, Walkable;
    var r := CapSections(rest[1..], ceiling).value;
    if r.Ok? { assert done + ([rest[0]] + r.value) == (done + [rest[0]]) + r.value; }
  }

  lemma WalkBegins(s: Bytes, ceiling: nat)
    requires Walkable(s) && Capped(s, ceiling).Some?
    ensures PREAMBLE <= |s| && Walked(s, PREAMBLE, [], SectionsOf(s)) && Owes(s, [], SectionsOf(s), ceiling)
  {
    OwesAtFirst(s, ceiling);
  }

  lemma AtHead(s: Bytes, at: nat, done: seq<Section>, rest: seq<Section>)
    requires Walked(s, at, done, rest) && at < |s|
    ensures ReadU(s[at + 1..]).Some?
  {
    HeadReads(s[at..]);
    DropDrop(s, at, 1);
  }

  lemma PastHead(s: Bytes, at: nat, body: nat, size: nat, done: seq<Section>, rest: seq<Section>, ceiling: nat)
    returns (done': seq<Section>, rest': seq<Section>)
    requires Walked(s, at, done, rest) && Owes(s, done, rest, ceiling)
    requires at < |s| && body > at && ReadU(s[at + 1..]) == Some((size, body - at - 1))
    ensures Lies(s, at, body, body + size, rest) && body + size <= |s| && rest != []
    ensures IsMemory(rest[0]) <==> s[at] == MEMORY
    ensures !IsMemory(rest[0]) ==> Walked(s, body + size, done', rest') && Owes(s, done', rest', ceiling)
  {
    hide ReadU, ParseSections, HeadFits, Print, Walked, Owes, Lies, IsMemory;
    WalkWithin(s, at, done, rest);
    HeadAt(s, at, body, size);
    LiesWithin(s, at, body, body + size, rest);
    done', rest' := done + [rest[0]], rest[1..];
    if !IsMemory(rest[0]) {
      WalkOn(s, at, body, body + size, done, rest);
      OwesOn(s, done, rest, ceiling);
    }
  }

  /**
   * Put the ceiling on: find the memory section, write it anew, and splice it in. Nothing of
   * the given bytes changes.
   */
  method CapMemory(bytes: array<Byte>, maxPages: nat) returns (r: Result<array<Byte>, Error>)
    requires Walkable(bytes[..]) && Capped(bytes[..], maxPages).Some?
    ensures match Capped(bytes[..], maxPages).value
      case Ok(out) => r.Ok? && fresh(r.value) && r.value[..] == out
      case Err(e) => r == Err(e)
  {
    ghost var s := bytes[..];
    hide *;
    WalkBegins(s, maxPages);
    ghost var done: seq<Section>, rest := [], SectionsOf(s);
    var at := PREAMBLE;
    while at < bytes.Length
      invariant at <= bytes.Length
      invariant Walked(s, at, done, rest) && Owes(s, done, rest, maxPages)
    {
      AtHead(s, at, done, rest);
      var id := bytes[at];
      var size, body := Uleb(bytes, at + 1);
      ghost var done', rest' := PastHead(s, at, body, size, done, rest, maxPages);
      if id == MEMORY {
        r := PatchSection(bytes, at, body, size, maxPages, done, rest);
        return;
      }
      done, rest, at := done', rest', body + size;
    }
    WalkEnds(s, done, rest, maxPages);
    r := Err(NoMemorySection);
  }

  lemma PatchMeans(s: Bytes, at: nat, body: nat, next: nat, done: seq<Section>, rest: seq<Section>, ceiling: nat)
    requires Walked(s, at, done, rest) && Owes(s, done, rest, ceiling)
    requires Lies(s, at, body, next, rest) && IsMemory(rest[0])
    ensures at < body <= next <= |s| && ReadU(s[body..]).Some? && Walkable(s)
    ensures var (count, length) := ReadU(s[body..]).value;
      && CapEntries(s[body..][length..], count, ceiling).Some?
      && match CapEntries(s[body..][length..], count, ceiling).value
         case Err(e) => Capped(s, ceiling) == Some(Err(e))
         case Ok(memories) =>
           var out := PrintMemories(memories);
           Capped(s, ceiling) == Some(Ok(s[..at] + ([MEMORY] + ToU(|out|) + out) + s[next..]))
  {
    hide ReadU, CapEntries, ParseSections, CapSections, HeadFits, Walked, PrintMemories, Print, IsMemory, ToU, Capped,
      Walkable, Lies, Owes;
    OwesMeans(s, done, rest, ceiling);
    WalkWithin(s, at, done, rest);
    LiesWithin(s, at, body, next, rest);
    PatchOf(s, at, body, next, rest, ceiling);
    var (count, length) := ReadU(s[body..]).value;
    var r := CapEntries(s[body..][length..], count, ceiling).value;
    if r.Ok? { Spliced(s, at, next, done, MemorySection(PrintMemories(r.value)), rest[1..]); }
  }

  method PatchSection(bytes: array<Byte>, at: nat, body: nat, size: nat, maxPages: nat,
                      ghost done: seq<Section>, ghost rest: seq<Section>)
    returns (r: Result<array<Byte>, Error>)
    requires Walked(bytes[..], at, done, rest) && Owes(bytes[..], done, rest, maxPages)
    requires Lies(bytes[..], at, body, body + size, rest) && IsMemory(rest[0])
    requires Walkable(bytes[..])
    ensures Capped(bytes[..], maxPages).Some?
    ensures match Capped(bytes[..], maxPages).value
      case Ok(out) => r.Ok? && fresh(r.value) && r.value[..] == out
      case Err(e) => r == Err(e)
  {
    hide *;
    PatchMeans(bytes[..], at, body, body + size, done, rest, maxPages);
    var contents := CapBody(bytes, body, maxPages);
    if contents.Err? { return Err(contents.error); }
    var out := contents.value;
    var length' := ToUleb(|out|);
    var section := [MEMORY] + length' + out;
    var patched := Splice(bytes, at, section, body + size);
    r := Ok(patched);
  }
}
