/**
 * Numbering the physical lines of a CSV by the records they begin.
 *
 * The numbering walks line by line, looking one character ahead and carrying its state over
 * line breaks. It is held against a single pass over the whole text that never looks ahead,
 * and against the text a writer makes under section 2 of RFC 4180.
 */
module CsvRecords {
  import opened Basics

  datatype Dialect = Dialect(delimiter: string, quote: Option<string>, escape: Option<string>)

  datatype Schema = Schema(dialect: Option<Dialect>, droppedLines: Option<seq<nat>>)

  const RFC4180_DIALECT := Dialect(",", Some("\""), Some("\""))

  /** The dialect to number under: the stored one; RFC 4180 where lines were dropped; else none. */
  function DialectOf(schema: Option<Schema>): Option<Dialect> {
    if schema.Some? && schema.value.dialect.Some? then schema.value.dialect
    else if schema.Some? && schema.value.droppedLines.Some? && schema.value.droppedLines.value != [] then
      Some(RFC4180_DIALECT)
    else None
  }

  /** A character, where the sniffer reported one. */
  function CharOf(value: Option<string>): Option<char> {
    if value.Some? && |value.value| == 1 then Some(value.value[0]) else None
  }

  datatype Marks = Marks(quote: Option<char>, escape: Option<char>, delimiter: Option<char>) {
    /** A quote inside a quoted field is written twice, rather than behind an escape. */
    predicate Doubles() { escape.None? || escape == quote }
  }

  function MarksOf(dialect: Option<Dialect>): Marks {
    match dialect
    case None => Marks(None, None, None)
    case Some(d) => Marks(CharOf(d.quote), CharOf(d.escape), CharOf(Some(d.delimiter)))
  }

  // ---- one pass over a whole text ----

  /** `Escaped`: past an escape character. `Closing`: past a quote that may be the first of two. */
  datatype State = FieldStart | Unquoted | Quoted | Escaped | Closing

  function Outside(c: char, start: bool, m: Marks): State {
    if m.delimiter == Some(c) then FieldStart
    else if start && m.quote == Some(c) then Quoted
    else Unquoted
  }

  function Step(st: State, c: char, m: Marks): State {
    match st
    case FieldStart => Outside(c, true, m)
    case Unquoted => Outside(c, false, m)
    case Escaped => Quoted
    case Quoted =>
      if !m.Doubles() && m.escape == Some(c) then Escaped
      else if m.quote == Some(c) then if m.Doubles() then Closing else Unquoted
      else Quoted
    case Closing => if m.quote == Some(c) then Quoted else Outside(c, false, m)
  }

  /** Whether a line break here is inside a quoted field. */
  predicate Inside(st: State) { st.Quoted? || st.Escaped? }

  function AfterBreak(st: State): State { if Inside(st) then Quoted else FieldStart }

  /** The labels of the lines that begin in `text`, `record` being the last number given. */
  function Pass(text: string, st: State, record: nat, m: Marks): seq<Option<nat>> {
    if text == "" then []
    else if text[0] != '\n' then Pass(text[1..], Step(st, text[0], m), record, m)
    else if Inside(st) then [None] + Pass(text[1..], Quoted, record, m)
    else [Some(record + 1)] + Pass(text[1..], FieldStart, record + 1, m)
  }

  /** The label of every line of a text: the number of the record it begins, or a blank. */
  function Labels(text: string, m: Marks): seq<Option<nat>> {
    [Some(1)] + Pass(text, FieldStart, 1, m)
  }

  // ---- line by line ----

  function Split(text: string): (lines: seq<string>)
    ensures |lines| > 0
  {
    if text == "" then [""]
    else if text[0] == '\n' then [""] + Split(text[1..])
    else [[text[0]] + Split(text[1..])[0]] + Split(text[1..])[1..]
  }

  function Join(lines: seq<string>): string
    requires |lines| > 0
  {
    if |lines| == 1 then lines[0] else lines[0] + "\n" + Join(lines[1..])
  }

  predicate Unbroken(line: string) { '\n' !in line }

  lemma SplitLine(line: string, rest: string)
    requires Unbroken(line)
    ensures Split(line) == [line] && Split(line + "\n" + rest) == [line] + Split(rest)
  {
    if line == "" {
      assert line + "\n" + rest == "\n" + rest;
    } else {
      SplitLine(line[1..], rest);
      assert line == [line[0]] + line[1..] && (line + "\n" + rest)[1..] == line[1..] + "\n" + rest;
    }
  }

  /** Splitting undoes joining: the lines of a text are any lines that hold no line break. */
  lemma {:induction false} SplitUndoesJoin(lines: seq<string>)
    requires |lines| > 0 && forall l :: l in lines ==> Unbroken(l)
    ensures Split(Join(lines)) == lines
  {
    SplitLine(lines[0], if |lines| == 1 then "" else Join(lines[1..]));
    if |lines| > 1 { SplitUndoesJoin(lines[1..]); }
  }

  function Run(line: string, st: State, m: Marks): State {
    if line == "" then st else Run(line[1..], Step(st, line[0], m), m)
  }

  /** The state a line leaves to the next: all that survives is being inside a quoted field. */
  function Numbered(lines: seq<string>, st: State, record: nat, m: Marks): (labels: seq<Option<nat>>)
    ensures |labels| == |lines|
  {
    if lines == [] then []
    else
      var end := Run(lines[0], AfterBreak(st), m);
      if Inside(st) then [None] + Numbered(lines[1..], end, record, m)
      else [Some(record + 1)] + Numbered(lines[1..], end, record + 1, m)
  }

  lemma {:induction false} PassIsByLines(text: string, st: State, record: nat, m: Marks)
    ensures Pass(text, st, record, m) == Numbered(Split(text)[1..], Run(Split(text)[0], st, m), record, m)
  {
    if text != "" {
      var rest := Split(text[1..]);
      if text[0] == '\n' {
        PassIsByLines(text[1..], AfterBreak(st), if Inside(st) then record else record + 1, m);
        assert Split(text)[1..] == rest && Split(text)[0] == "";
      } else {
        PassIsByLines(text[1..], Step(st, text[0], m), record, m);
        assert Split(text)[1..] == rest[1..] && Split(text)[0] == [text[0]] + rest[0];
      }
    }
  }

  /** For any text and dialect, the walk over its lines and the single pass agree. */
  lemma WalkIsPass(text: string, m: Marks)
    ensures Numbered(Split(text), FieldStart, 0, m) == Labels(text, m)
  {
    PassIsByLines(text, FieldStart, 1, m);
  }

  /** A quote at the beginning of a field: of the line, or behind a delimiter. One that is the delimiter too delimits. */
  predicate QuoteAtStart(line: string, i: nat, m: Marks)
    requires i < |line|
  {
    m.quote == Some(line[i]) && m.delimiter != Some(line[i]) && (i == 0 || m.delimiter == Some(line[i - 1]))
  }

  /** A line on which no quoted field opens: every quote stands further on in an unquoted field. */
  predicate OpensNone(line: string, m: Marks) {
    forall i: nat :: i < |line| ==> !QuoteAtStart(line, i, m)
  }

  predicate Plain(st: State) { st.FieldStart? || st.Unquoted? }

  /** Where no quoted field can open nothing continues a record: every line has its own number. */
  lemma {:induction false} UnquotedNumbersAll(lines: seq<string>, st: State, record: nat, m: Marks)
    requires !Inside(st) && forall line :: line in lines ==> OpensNone(line, m)
    ensures forall i :: 0 <= i < |lines| ==> Numbered(lines, st, record, m)[i] == Some(record + i + 1)
  {
    if lines != [] {
      StaysPlain(lines[0], m);
      UnquotedNumbersAll(lines[1..], Run(lines[0], FieldStart, m), record + 1, m);
    }
  }

  /** What a line without an opening quote leaves: the start of a field just behind a delimiter. */
  lemma {:induction false} StaysPlain(line: string, m: Marks)
    requires OpensNone(line, m)
    ensures Plain(Run(line, FieldStart, m))
    ensures Run(line, FieldStart, m).FieldStart? <==> line == "" || m.delimiter == Some(line[|line| - 1])
  {
    if line != "" {
      var n := |line| - 1;
      forall i: nat | i < n ensures !QuoteAtStart(line[..n], i, m) { assert !QuoteAtStart(line, i, m); }
      StaysPlain(line[..n], m);
      RunLonger(line[..n], line[n], FieldStart, m);
      assert line == line[..n] + [line[n]] && !QuoteAtStart(line, n, m);
    }
  }

  lemma {:induction false} RunLonger(line: string, c: char, st: State, m: Marks)
    ensures Run(line + [c], st, m) == Step(Run(line, st, m), c, m)
  {
    if line == "" {
      assert line + [c] == [c] && [c][1..] == "";
    } else {
      assert (line + [c])[1..] == line[1..] + [c];
      RunLonger(line[1..], c, Step(st, line[0], m), m);
    }
  }

  /** And one with an opening quote, which nothing on the line closes, goes on: the next line is blank. */
  lemma OpenedGoesOn(line: string, i: nat, next: string, record: nat, m: Marks)
    requires i < |line| && QuoteAtStart(line, i, m) && OpensNone(line[..i], m)
    requires forall j :: i < j < |line| ==> m.quote != Some(line[j])
    ensures Numbered([line, next], FieldStart, record, m) == [Some(record + 1), None]
  {
    StaysPlain(line[..i], m);
    RunLonger(line[..i], line[i], FieldStart, m);
    assert line[..i + 1] == line[..i] + [line[i]];
    StaysInside(line, i + 1, Quoted, m);
    RunOn(line[..i + 1], line[i + 1..], FieldStart, m);
    assert line == line[..i + 1] + line[i + 1..];
    hide Run;
    assert [line, next][1..] == [next] && [next][1..] == [];
    var end := Run(next, AfterBreak(Run(line, FieldStart, m)), m);
    assert Numbered([next], Run(line, FieldStart, m), record + 1, m) == [None] + Numbered([next][1..], end, record + 1, m);
    assert Numbered([next][1..], end, record + 1, m) == [];
  }

  lemma {:induction false} RunOn(a: string, b: string, st: State, m: Marks)
    ensures Run(a + b, st, m) == Run(b, Run(a, st, m), m)
  {
    if a == "" {
      assert a + b == b;
    } else {
      assert (a + b)[1..] == a[1..] + b;
      RunOn(a[1..], b, Step(st, a[0], m), m);
    }
  }

  lemma {:induction false} StaysInside(line: string, j: nat, st: State, m: Marks)
    requires j <= |line| && Inside(st) && forall k :: j <= k < |line| ==> m.quote != Some(line[k])
    ensures Inside(Run(line[j..], st, m))
    decreases |line| - j
  {
    if j < |line| {
      assert line[j..][1..] == line[j + 1..];
      StaysInside(line, j + 1, Step(st, line[j], m), m);
    }
  }

  /** Every text's gutter is its physical line numbers. */
  ghost predicate NumbersPhysically(m: Marks) {
    forall lines :: (forall line :: line in lines ==> Unbroken(line)) ==> CountsUp(Numbered(lines, FieldStart, 0, m))
  }

  predicate CountsUp(labels: seq<Option<nat>>) { forall i :: 0 <= i < |labels| ==> labels[i] == Some(i + 1) }

  /** Exactly when a dialect numbers every text physically: it has no quote that could open a field. */
  lemma PhysicalIff(m: Marks)
    ensures NumbersPhysically(m) <==> m.quote.None? || m.quote == m.delimiter || m.quote == Some('\n')
  {
    if m.quote.None? || m.quote == m.delimiter || m.quote == Some('\n') {
      forall lines: seq<string> | forall line :: line in lines ==> Unbroken(line)
        ensures CountsUp(Numbered(lines, FieldStart, 0, m))
      {
        UnquotedNumbersAll(lines, FieldStart, 0, m);
      }
    } else {
      var q := m.quote.value;
      var lines := [[q], ""];
      assert [q][1..] == "" && Run("", Quoted, m) == Quoted && Run([q], FieldStart, m) == Quoted;
      var rest := Numbered(lines[1..], Quoted, 1, m);
      assert lines[1..][0] == "" && rest[0] == None;
      assert Numbered(lines, FieldStart, 0, m)[1] == None;
      assert !CountsUp(Numbered(lines, FieldStart, 0, m));
      assert forall line :: line in lines ==> Unbroken(line);
    }
  }

  /** A stored dialect is counted under, whatever was dropped; a quote that is no single character is none. */
  lemma StoredDialect(d: Dialect, dropped: Option<seq<nat>>)
    ensures DialectOf(Some(Schema(Some(d), dropped))) == Some(d)
    ensures d.quote.Some? && |d.quote.value| == 1 ==> MarksOf(Some(d)).quote == Some(d.quote.value[0])
    ensures d.quote.None? || |d.quote.value| != 1 ==> NumbersPhysically(MarksOf(Some(d)))
  {
    PhysicalIff(MarksOf(Some(d)));
  }

  /**
   * What a schema's raw text is numbered under when it keeps no dialect: physically if no line
   * of it was dropped, and otherwise as the RFC's own printing numbers it.
   */
  lemma WithoutDialect(schema: Option<Schema>)
    requires schema.None? || schema.value.dialect.None?
    ensures var m := MarksOf(DialectOf(schema));
      var dropped := schema.Some? && schema.value.droppedLines.Some? && schema.value.droppedLines.value != [];
      (NumbersPhysically(m) <==> !dropped) && (Prints(m) <==> dropped)
  {
    PhysicalIff(MarksOf(DialectOf(schema)));
  }

  /** Not knowing yet whether a quote closes its field, and knowing it does, once no second quote follows. */
  lemma ClosedIsUnquoted(rest: string, m: Marks)
    requires rest == "" || m.quote != Some(rest[0])
    ensures Inside(Run(rest, Closing, m)) == Inside(Run(rest, Unquoted, m))
  {
  }

  /** Where the walk stands in a line; only these three are ever held. */
  datatype Place = AtFieldStart | InUnquoted | InQuoted

  function StateOf(p: Place): State {
    match p
    case AtFieldStart => FieldStart
    case InUnquoted => Unquoted
    case InQuoted => Quoted
  }

  /** Whether a line walked from `p` at `i` ends inside a quoted field; `i` may be one past its end. */
  predicate EndsInside(line: string, i: nat, p: Place, m: Marks) {
    Inside(Run(line[Min(i, |line|)..], StateOf(p), m))
  }

  method WalkLine(line: string, from: Place, m: Marks) returns (state: Place)
    requires m.quote.Some?
    ensures state.InQuoted? == Inside(Run(line, StateOf(from), m))
  {
    state := from;
    var i := 0;
    while i < |line|
      invariant 0 <= i <= |line| + 1
      invariant EndsInside(line, i, state, m) == Inside(Run(line, StateOf(from), m))
    {
      var ch := line[i];
      ghost var rest := line[i + 1..];
      assert line[i..][0] == ch && line[i..][1..] == rest;
      assert Run(line[i..], StateOf(state), m) == Run(rest, Step(StateOf(state), ch, m), m);
      if rest != "" { assert rest[0] == line[i + 1] && rest[1..] == line[i + 2..]; }
      if state.InQuoted? {
        if m.escape.Some? && m.escape != m.quote && Some(ch) == m.escape {
          i := i + 1;
        } else if Some(ch) == m.quote {
          if m.Doubles() && i + 1 < |line| && Some(line[i + 1]) == m.quote {
            i := i + 1;
          } else {
            if m.Doubles() { ClosedIsUnquoted(rest, m); }
            state := InUnquoted;
          }
        }
      } else if Some(ch) == m.delimiter {
        state := AtFieldStart;
      } else if state.AtFieldStart? {
        state := if Some(ch) == m.quote then InQuoted else InUnquoted;
      }
      i := i + 1;
    }
  }

  /** The labels of the first `n` lines are given; the rest are those of a walk from here. */
  predicate GivenUpTo(labels: seq<Option<nat>>, lines: seq<string>, n: nat, st: State, record: nat, m: Marks) {
    n <= |lines| && labels + Numbered(lines[n..], st, record, m) == Numbered(lines, FieldStart, 0, m)
  }

  lemma GivenOn(labels: seq<Option<nat>>, lines: seq<string>, n: nat, st: State, record: nat, m: Marks, end: State)
    requires GivenUpTo(labels, lines, n, st, record, m) && n < |lines|
    requires Inside(end) == Inside(Run(lines[n], AfterBreak(st), m))
    ensures if Inside(st) then GivenUpTo(labels + [None], lines, n + 1, end, record, m)
            else GivenUpTo(labels + [Some(record + 1)], lines, n + 1, end, record + 1, m)
  {
    hide Numbered, Run, Inside;
    var (mark, last) := if Inside(st) then (None, record) else (Some(record + 1), record + 1);
    NumberedOn(lines[n..], st, record, m);
    assert lines[n..][1..] == lines[n + 1..] && lines[n..][0] == lines[n];
    SameInside(lines[n + 1..], Run(lines[n], AfterBreak(st), m), end, last, m);
    Regroup(labels, [mark], Numbered(lines[n + 1..], end, last, m));
  }

  lemma Regroup(a: seq<Option<nat>>, b: seq<Option<nat>>, c: seq<Option<nat>>)
    ensures a + (b + c) == a + b + c
  {
  }

  lemma GivenAll(labels: seq<Option<nat>>, lines: seq<string>, st: State, record: nat, m: Marks)
    ensures GivenUpTo([], lines, 0, FieldStart, 0, m)
    ensures GivenUpTo(labels, lines, |lines|, st, record, m) ==> labels == Numbered(lines, FieldStart, 0, m)
  {
    assert lines[0..] == lines && lines[|lines|..] == [];
    assert Numbered([], st, record, m) == [];
  }

  /** The gutter: one label a line, the record's number where one begins and a blank elsewhere. */
  method CsvRecordLabels(lines: seq<string>, dialect: Option<Dialect>) returns (labels: seq<Option<nat>>)
    ensures labels == Numbered(lines, FieldStart, 0, MarksOf(dialect))
  {
    var m := MarksOf(dialect);
    hide Numbered, Run, GivenUpTo, MarksOf;
    if m.quote.None? {
      UnquotedNumbersAll(lines, FieldStart, 0, m);
      labels := seq(|lines|, i requires 0 <= i < |lines| => Some(i + 1));
      return;
    }
    labels := [];
    var record: nat := 0;
    var state := AtFieldStart;
    GivenAll(labels, lines, FieldStart, 0, m);
    for n := 0 to |lines|
      invariant GivenUpTo(labels, lines, n, StateOf(state), record, m)
    {
      ghost var before := StateOf(state);
      var mark: Option<nat> := None;
      if !state.InQuoted? {
        record := record + 1;
        mark := Some(record);
        state := AtFieldStart;
      }
      state := WalkLine(lines[n], state, m);
      GivenOn(labels, lines, n, before, if Inside(before) then record else record - 1, m, StateOf(state));
      labels := labels + [mark];
    }
    GivenAll(labels, lines, StateOf(state), record, m);
  }

  lemma NumberedOn(lines: seq<string>, st: State, record: nat, m: Marks)
    requires lines != []
    ensures Numbered(lines, st, record, m) ==
      if Inside(st) then [None] + Numbered(lines[1..], Run(lines[0], Quoted, m), record, m)
      else [Some(record + 1)] + Numbered(lines[1..], Run(lines[0], FieldStart, m), record + 1, m)
  {
    hide Run;
  }

  lemma SameInside(lines: seq<string>, a: State, b: State, record: nat, m: Marks)
    requires Inside(a) == Inside(b)
    ensures Numbered(lines, a, record, m) == Numbered(lines, b, record, m)
  {
  }

  // ---- what a writer prints ----

  /** A field and whether its writer quotes it. */
  datatype Field = Field(text: string, quoted: bool)

  /** Quoting by doubling, or with an escape, and marks and line breaks that can be told apart. */
  predicate Prints(m: Marks) {
    && m.quote.Some? && m.delimiter.Some? && m.quote != m.delimiter
    && m.quote.value !in "\r\n" && m.delimiter.value !in "\r\n"
    && (m.escape.Some? ==> m.escape.value !in "\r\n")
  }

  /**
   * Rules 5 to 7: a field with a line break or a delimiter in it, or a quote at its beginning,
   * is quoted. A quote further on is let stand as a character of its own, as in 5"6.
   */
  predicate MayPrint(f: Field, m: Marks)
    requires Prints(m)
  {
    || f.quoted
    || ((forall c :: c in f.text ==> c !in "\r\n" && c != m.delimiter.value) && (f.text != "" ==> f.text[0] != m.quote.value))
  }

  /** A character as it is written between quotes: a quote doubled, or it and the escape behind an escape. */
  function Guard(c: char, m: Marks): string
    requires Prints(m)
  {
    if m.escape.None? || m.escape == m.quote then if c == m.quote.value then [c, c] else [c]
    else if c == m.quote.value || c == m.escape.value then [m.escape.value, c]
    else [c]
  }

  function Guarded(text: string, m: Marks): string
    requires Prints(m)
  {
    if text == "" then "" else Guard(text[0], m) + Guarded(text[1..], m)
  }

  function PrintField(f: Field, m: Marks): string
    requires Prints(m)
  {
    if f.quoted then [m.quote.value] + Guarded(f.text, m) + [m.quote.value] else f.text
  }

  function PrintRecord(fields: seq<Field>, m: Marks): string
    requires Prints(m) && |fields| > 0
  {
    if |fields| == 1 then PrintField(fields[0], m)
    else PrintField(fields[0], m) + [m.delimiter.value] + PrintRecord(fields[1..], m)
  }

  predicate Eol(eol: string) { eol == "\n" || eol == "\r\n" }

  /** Every record on lines of its own; the last may or may not end in a line break. */
  function PrintAll(records: seq<seq<Field>>, eol: string, last: bool, m: Marks): string
    requires Prints(m) && forall r :: r in records ==> |r| > 0
  {
    if records == [] then ""
    else if |records| == 1 && !last then PrintRecord(records[0], m)
    else PrintRecord(records[0], m) + eol + PrintAll(records[1..], eol, last, m)
  }

  function Breaks(text: string): nat {
    if text == "" then 0 else (if text[0] == '\n' then 1 else 0) + Breaks(text[1..])
  }

  lemma {:induction false} BreaksAdd(a: string, b: string)
    ensures Breaks(a + b) == Breaks(a) + Breaks(b)
  {
    if a == "" {
      assert a + b == b;
    } else {
      assert (a + b)[1..] == a[1..] + b;
      BreaksAdd(a[1..], b);
    }
  }

  function Blanks(n: nat): (b: seq<Option<nat>>)
    ensures |b| == n && forall i :: 0 <= i < n ==> b[i] == None
  {
    seq(n, _ => None)
  }

  lemma QuotedChar(c: char, s: string, record: nat, m: Marks)
    requires Prints(m)
    ensures Pass(Guard(c, m) + s, Quoted, record, m)
      == if c == '\n' then [None] + Pass(s, Quoted, record, m) else Pass(s, Quoted, record, m)
    ensures Breaks(Guard(c, m)) == if c == '\n' then 1 else 0
  {
    var guard := Guard(c, m);
    if |guard| == 2 {
      assert (guard + s)[1..] == [c] + s && ([c] + s)[1..] == s && guard[1..] == [c];
    } else {
      assert ([c] + s)[1..] == s;
    }
    assert [c][1..] == "" && Breaks("") == 0;
  }

  /** Where the quote that ends a field leaves the walk: it may be the first of two, or not. */
  function AfterQuote(m: Marks): State { if m.Doubles() then Closing else Unquoted }

  lemma GuardedFirst(text: string, m: Marks)
    requires Prints(m) && text != ""
    ensures Guarded(text, m) == Guard(text[0], m) + Guarded(text[1..], m)
  {
  }

  lemma OneMoreBlank(n: nat, after: seq<Option<nat>>)
    ensures [None] + (Blanks(n) + after) == Blanks(1 + n) + after
  {
  }

  lemma {:induction false} QuotedPass(text: string, rest: string, record: nat, m: Marks)
    requires Prints(m)
    ensures Pass(Guarded(text, m) + [m.quote.value] + rest, Quoted, record, m)
      == Blanks(Breaks(Guarded(text, m))) + Pass(rest, AfterQuote(m), record, m)
  {
    var q := [m.quote.value];
    if text == "" {
      assert (Guarded(text, m) + q + rest)[1..] == rest;
    } else {
      var first, more := Guard(text[0], m), Guarded(text[1..], m);
      hide *;
      GuardedFirst(text, m);
      QuotedPass(text[1..], rest, record, m);
      BreaksAdd(first, more);
      QuotedChar(text[0], more + q + rest, record, m);
      assert first + more + q + rest == first + (more + q + rest);
      if text[0] == '\n' { OneMoreBlank(Breaks(more), Pass(rest, AfterQuote(m), record, m)); }
    }
  }

  lemma {:induction false} PlainPass(text: string, rest: string, st: State, record: nat, m: Marks)
    requires Prints(m) && (st.Unquoted? || (st.FieldStart? && MayPrint(Field(text, false), m)))
    requires forall c :: c in text ==> c !in "\r\n" && c != m.delimiter.value
    ensures Pass(text + rest, st, record, m) == Pass(rest, if text == "" then st else Unquoted, record, m)
    ensures Breaks(text) == 0
  {
    if text == "" {
      assert text + rest == rest;
    } else {
      assert (text + rest)[1..] == text[1..] + rest;
      assert text[0] in text && forall c :: c in text[1..] ==> c in text;
      PlainPass(text[1..], rest, Unquoted, record, m);
    }
  }

  function AfterField(f: Field, m: Marks): State {
    if f.quoted then AfterQuote(m) else if f.text == "" then FieldStart else Unquoted
  }

  lemma FieldPass(f: Field, rest: string, record: nat, m: Marks)
    requires Prints(m) && MayPrint(f, m)
    ensures Pass(PrintField(f, m) + rest, FieldStart, record, m)
      == Blanks(Breaks(PrintField(f, m))) + Pass(rest, AfterField(f, m), record, m)
  {
    if f.quoted {
      var q := m.quote.value;
      var body := Guarded(f.text, m);
      QuotedPass(f.text, rest, record, m);
      hide Guarded;
      assert (PrintField(f, m) + rest)[1..] == body + [q] + rest;
      BreaksAdd([q] + body, [q]);
      assert PrintField(f, m)[1..] == body + [q];
      BreaksAdd(body, [q]);
      assert Breaks([q]) == 0;
    } else {
      PlainPass(f.text, rest, FieldStart, record, m);
    }
  }

  lemma {:induction false} RecordPass(fields: seq<Field>, rest: string, record: nat, m: Marks)
    requires Prints(m) && |fields| > 0 && forall f :: f in fields ==> MayPrint(f, m)
    ensures Pass(PrintRecord(fields, m) + rest, FieldStart, record, m)
      == Blanks(Breaks(PrintRecord(fields, m))) + Pass(rest, AfterField(fields[|fields| - 1], m), record, m)
  {
    hide PrintField, MayPrint;
    var f, d := fields[0], [m.delimiter.value];
    if |fields| == 1 {
      FieldPass(f, rest, record, m);
    } else {
      var first, more := PrintField(f, m), PrintRecord(fields[1..], m);
      RecordPass(fields[1..], rest, record, m);
      FieldPass(f, d + (more + rest), record, m);
      assert PrintRecord(fields, m) + rest == first + (d + (more + rest));
      assert (d + (more + rest))[1..] == more + rest;
      BreaksAdd(first + d, more);
      BreaksAdd(first, d);
      assert Breaks(d) == 0;
      assert Blanks(Breaks(first)) + Blanks(Breaks(more)) == Blanks(Breaks(first) + Breaks(more));
      assert fields[1..][|fields[1..]| - 1] == fields[|fields| - 1];
    }
  }

  lemma EolPass(eol: string, rest: string, f: Field, record: nat, m: Marks)
    requires Prints(m) && Eol(eol)
    ensures Pass(eol + rest, AfterField(f, m), record, m) == [Some(record + 1)] + Pass(rest, FieldStart, record + 1, m)
    ensures Breaks(eol) == 1
  {
    if eol == "\r\n" {
      assert (eol + rest)[1..] == "\n" + rest && ("\n" + rest)[1..] == rest;
      assert Breaks(eol[1..]) == 1;
    } else {
      assert (eol + rest)[1..] == rest;
    }
  }

  predicate Writable(records: seq<seq<Field>>, eol: string, m: Marks) {
    && Prints(m) && Eol(eol)
    && forall r :: r in records ==> |r| > 0 && forall f :: f in r ==> MayPrint(f, m)
  }

  /** The labels wanted: a record's number, then a blank for each line it goes on over. */
  function Wanted(records: seq<seq<Field>>, record: nat, m: Marks): seq<Option<nat>>
    requires Prints(m) && forall r :: r in records ==> |r| > 0
  {
    if records == [] then []
    else [Some(record + 1)] + Blanks(Breaks(PrintRecord(records[0], m))) + Wanted(records[1..], record + 1, m)
  }

  lemma {:induction false} PrintedPass(records: seq<seq<Field>>, eol: string, last: bool, record: nat, m: Marks)
    requires Writable(records, eol, m) && |records| > 0
    ensures [Some(record + 1)] + Pass(PrintAll(records, eol, last, m), FieldStart, record + 1, m)
      == Wanted(records, record, m) + if last then [Some(record + |records| + 1)] else []
  {
    hide PrintRecord, MayPrint, Eol, Pass, Breaks;
    var r, more := records[0], records[1..];
    var printed, blanks := PrintRecord(r, m), Blanks(Breaks(PrintRecord(r, m)));
    if |records| == 1 && !last {
      RecordPass(r, "", record + 1, m);
      assert printed + "" == printed;
      NothingLeft(AfterField(r[|r| - 1], m), record + 1, m);
    } else {
      var rest := PrintAll(more, eol, last, m);
      RecordPass(r, eol + rest, record + 1, m);
      assert PrintAll(records, eol, last, m) == printed + (eol + rest);
      EolPass(eol, rest, r[|r| - 1], record + 1, m);
      if more == [] {
        NothingLeft(FieldStart, record + 2, m);
      } else {
        PrintedPass(more, eol, last, record + 1, m);
      }
    }
  }

  lemma NothingLeft(st: State, record: nat, m: Marks)
    ensures Pass("", st, record, m) == []
  {
  }

  /** The physical line record `k` begins on: as many lines as there are breaks before it. */
  function FirstLine(records: seq<seq<Field>>, k: nat, eol: string, m: Marks): nat
    requires Prints(m) && (forall r :: r in records ==> |r| > 0) && k <= |records|
  {
    Breaks(PrintAll(records[..k], eol, true, m))
  }

  lemma FirstLineStep(records: seq<seq<Field>>, k: nat, eol: string, m: Marks)
    requires Writable(records, eol, m) && 0 < k <= |records|
    ensures Writable(records[1..], eol, m)
    ensures FirstLine(records, k, eol, m)
      == Breaks(PrintRecord(records[0], m)) + 1 + FirstLine(records[1..], k - 1, eol, m)
  {
    hide PrintRecord, MayPrint;
    assert records[..k][1..] == records[1..][..k - 1];
    var rest := PrintAll(records[1..][..k - 1], eol, true, m);
    BreaksAdd(PrintRecord(records[0], m) + eol, rest);
    BreaksAdd(PrintRecord(records[0], m), eol);
    EolPass(eol, rest, Field("", false), 0, m);
  }

  /** Line `i` begins record `k`. */
  predicate Begins(records: seq<seq<Field>>, k: nat, i: nat, eol: string, m: Marks) {
    Writable(records, eol, m) && k < |records| && FirstLine(records, k, eol, m) == i
  }

  lemma WantedHead(records: seq<seq<Field>>, record: nat, i: nat, m: Marks)
    requires Prints(m) && (forall r :: r in records ==> |r| > 0) && i < |Wanted(records, record, m)|
    ensures records != []
    ensures var breaks, more := Breaks(PrintRecord(records[0], m)), Wanted(records[1..], record + 1, m);
      && (i == 0 ==> Wanted(records, record, m)[i] == Some(record + 1))
      && (0 < i <= breaks ==> Wanted(records, record, m)[i] == None)
      && (i > breaks ==> i - breaks - 1 < |more| && Wanted(records, record, m)[i] == more[i - breaks - 1])
  {
    hide Prints, PrintRecord, Breaks;
  }

  lemma {:induction false} WantedAt(records: seq<seq<Field>>, record: nat, i: nat, eol: string, m: Marks)
    requires Writable(records, eol, m) && i < |Wanted(records, record, m)|
    ensures match Wanted(records, record, m)[i]
      case Some(n) => record < n && Begins(records, n - record - 1, i, eol, m)
      case None => true
    decreases |records|
  {
    hide PrintRecord, MayPrint, Breaks, Eol, FirstLine, PrintAll, Prints, Wanted;
    WantedHead(records, record, i, m);
    FirstAtZero(records, eol, m);
    FirstLineStep(records, 1, eol, m);
    var breaks, more := Breaks(PrintRecord(records[0], m)), records[1..];
    if i > breaks {
      WantedAt(more, record + 1, i - breaks - 1, eol, m);
      var w := Wanted(more, record + 1, m)[i - breaks - 1];
      if w.Some? { FirstLineStep(records, w.value - record - 1, eol, m); }
    }
  }

  lemma {:induction false} WantedLength(records: seq<seq<Field>>, record: nat, eol: string, m: Marks)
    requires Writable(records, eol, m)
    ensures |Wanted(records, record, m)| == FirstLine(records, |records|, eol, m)
  {
    hide PrintRecord, MayPrint, Breaks, Eol, FirstLine, PrintAll, Prints;
    FirstAtZero(records, eol, m);
    if records != [] {
      FirstLineStep(records, |records|, eol, m);
      WantedLength(records[1..], record + 1, eol, m);
    }
  }

  lemma FirstAtZero(records: seq<seq<Field>>, eol: string, m: Marks)
    requires Writable(records, eol, m)
    ensures FirstLine(records, 0, eol, m) == 0
  {
  }

  lemma {:induction false} WantedFirst(records: seq<seq<Field>>, record: nat, k: nat, eol: string, m: Marks)
    requires Writable(records, eol, m) && k < |records|
    ensures var i := FirstLine(records, k, eol, m);
      i < |Wanted(records, record, m)| && Wanted(records, record, m)[i] == Some(record + k + 1)
  {
    hide PrintRecord, MayPrint, Eol, Breaks;
    if k > 0 {
      FirstLineStep(records, k, eol, m);
      WantedFirst(records[1..], record + 1, k - 1, eol, m);
    } else {
      FirstAtZero(records, eol, m);
    }
  }

  /**
   * Printing and then numbering: label k + 1 lies on the physical line record k begins on,
   * and every line on which no record begins is blank. A line break after the last record
   * begins one more, empty, line.
   */
  lemma PrintThenNumber(records: seq<seq<Field>>, eol: string, last: bool, m: Marks)
    requires Writable(records, eol, m) && |records| > 0
    ensures var labels, lines := Labels(PrintAll(records, eol, last, m), m), FirstLine(records, |records|, eol, m);
      && |labels| == lines + (if last then 1 else 0)
      && (last ==> labels[lines] == Some(|records| + 1))
      && (forall k: nat :: k < |records| ==>
            var i := FirstLine(records, k, eol, m); i < lines && labels[i] == Some(k + 1))
      && forall i: nat :: i < lines && labels[i].Some? ==> exists k: nat :: Begins(records, k, i, eol, m)
  {
    hide PrintAll, FirstLine, Begins, PrintRecord, MayPrint;
    PrintedPass(records, eol, last, 0, m);
    var wanted := Wanted(records, 0, m);
    WantedFirst(records, 0, 0, eol, m);
    WantedLength(records, 0, eol, m);
    forall k: nat | k < |records|
      ensures var i := FirstLine(records, k, eol, m); i < |wanted| && wanted[i] == Some(k + 1)
    {
      WantedFirst(records, 0, k, eol, m);
    }
    forall i: nat | i < |wanted| && wanted[i].Some? ensures exists k: nat :: Begins(records, k, i, eol, m) {
      WantedAt(records, 0, i, eol, m);
      assert Begins(records, wanted[i].value - 1, i, eol, m);
    }
  }
}
