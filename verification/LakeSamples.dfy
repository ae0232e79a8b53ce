/**
 * The rows a diff query sends and how they are folded back: bookkeeping columns that no user
 * column can shadow, trimmed cells, and the older side of a changed row beside the newer.
 */
module LakeSamples {
  import opened Basics
  import opened LakeTables
  import opened LakeDiff

  // ---- names no column begins with ----

  function Longest(names: seq<string>): nat {
    if names == [] then 0 else Max(|names[0]|, Longest(names[1..]))
  }

  lemma LongestBounds(names: seq<string>, c: string)
    requires c in names
    ensures |c| <= Longest(names)
  {
    if c != names[0] { LongestBounds(names[1..], c); }
  }

  function Underscores(n: nat): string {
    if n == 0 then "" else Underscores(n - 1) + "_"
  }

  predicate Shadowed(names: seq<string>, name: string) {
    exists c :: c in names && name <= c
  }

  /** The shortest extension of `base` by underscores that no column name begins with. */
  method MarkerName(names: seq<string>, base: string) returns (name: string)
    ensures (forall c :: c in names ==> !(name <= c)) && base <= name
    ensures exists n: nat :: name == base + Underscores(n) && forall m: nat :: m < n ==> Shadowed(names, base + Underscores(m))
  {
    name := base;
    ghost var n: nat := 0;
    assert base + Underscores(0) == base;
    while exists c :: c in names && name <= c
      invariant name == base + Underscores(n)
      invariant forall m: nat :: m < n ==> Shadowed(names, base + Underscores(m))
      decreases Longest(names) - |name|
    {
      ghost var c :| c in names && name <= c;
      LongestBounds(names, c);
      name := name + "_";
      n := n + 1;
      assert base + Underscores(n) == name;
    }
  }

  // ---- sampled cells ----

  const SAMPLE_CELL_CHARS: nat := 512

  /** Wide cells are trimmed, and only VARCHAR is wide. */
  function Trim(v: Value): Value {
    if v.Text? && |v.s| > SAMPLE_CELL_CHARS then Text(v.s[..SAMPLE_CELL_CHARS] + "…") else v
  }

  function Trimmed(r: Row): Row { map c | c in r :: Trim(r[c]) }

  datatype Cell = Data(value: Value) | Count(n: int) | KindCell(kind: Kind) | Flag(set_: bool)

  type LakeRow = map<string, Cell>

  function Cells(r: Row): LakeRow { map c | c in r :: Data(r[c]) }

  datatype Markers = Markers(kind: string, total: string, before: string, moved: string)

  /** What `MarkerName` makes of the four bases. */
  predicate FreshMarkers(m: Markers, names: set<string>) {
    && "__kind" <= m.kind && "__total" <= m.total && "__before_" <= m.before && "__moved_" <= m.moved
    && forall c :: c in names ==> !(m.kind <= c) && !(m.total <= c) && !(m.before <= c) && !(m.moved <= c)
  }

  /** The four names the loop ends with are fresh to the columns it was given. */
  lemma MarkersAreFresh(columns: seq<string>, m: Markers)
    requires "__kind" <= m.kind && "__total" <= m.total && "__before_" <= m.before && "__moved_" <= m.moved
    requires forall c :: c in columns ==> !(m.kind <= c) && !(m.total <= c) && !(m.before <= c) && !(m.moved <= c)
    ensures FreshMarkers(m, set c | c in columns)
  {
  }

  /** Markers of different bases are different, whatever they begin. */
  lemma BasesApart(m: Markers, c: string)
    requires "__kind" <= m.kind && "__total" <= m.total && "__before_" <= m.before && "__moved_" <= m.moved
    ensures m.kind != m.total
    ensures m.kind != m.before + c && m.kind != m.moved + c && m.total != m.before + c && m.total != m.moved + c
    ensures !(m.moved <= m.before + c) && !(m.before <= m.moved + c)
    ensures !(m.moved <= m.kind) && !(m.moved <= m.total) && !(m.before <= m.kind) && !(m.before <= m.total)
  {
    var k, t, b, v := "__kind", "__total", "__before_", "__moved_";
    assert m.kind[2] == k[2] && m.total[2] == t[2];
    assert m.before[2] == b[2] && m.moved[2] == v[2];
    assert (m.before + c)[2] == b[2] && (m.moved + c)[2] == v[2];
  }

  // ---- the keyed query's rows ----

  /** The side a column is read from: the newer, or the older of a removed row. */
  function ReadSide(p: Pair, keys: seq<string>): Row
    requires keys != []
  {
    if Absent(p.after, keys) then (if p.before.Some? then p.before.value else map[])
    else p.after.value
  }

  function Side(side: Option<Row>, c: string): Value {
    if side.Some? then At(side.value, c) else Null
  }

  /** The columns of a row the keyed query sends. */
  function Sent(names: set<string>, keys: seq<string>, m: Markers): set<string> {
    var prior := set c | c in names && c !in keys;
    {m.kind, m.total} + names + (set c | c in prior :: m.before + c) + (set c | c in prior :: m.moved + c)
  }

  /** The row the keyed query sends for a pair of the join. */
  ghost predicate Encodes(row: LakeRow, p: Pair, total: nat, names: set<string>, keys: seq<string>, m: Markers)
    requires keys != []
  {
    var prior := set c | c in names && c !in keys;
    && row.Keys == Sent(names, keys, m)
    && row[m.kind] == KindCell(KindOf(p, keys))
    && row[m.total] == Count(total)
    && (forall c :: c in names ==> row[c] == Data(Trim(At(ReadSide(p, keys), c))))
    && (forall c :: c in prior ==> row[m.before + c] == Data(Trim(Side(p.before, c))))
    && (forall c :: c in prior ==> row[m.moved + c] == Flag(Side(p.before, c) != Side(p.after, c)))
  }

  function Rest(name: string, prefix: string): string
    requires prefix <= name
  {
    name[|prefix|..]
  }

  predicate IsAfter(c: string, m: Markers) {
    c != m.kind && c != m.total && !(m.moved <= c) && !(m.before <= c)
  }

  predicate IsPrior(c: string, row: LakeRow, m: Markers) {
    && c in row && c != m.kind && c != m.total && !(m.moved <= c) && m.before <= c
    && m.moved + Rest(c, m.before) in row && row[m.moved + Rest(c, m.before)] == Flag(true)
    && m.moved + Rest(c, m.before) != m.kind && m.moved + Rest(c, m.before) != m.total
  }

  function AfterOf(row: LakeRow, m: Markers): LakeRow {
    map c | c in row && IsAfter(c, m) :: row[c]
  }

  /** What of the older side is kept: the cells of the columns that moved, under their own names. */
  ghost predicate IsPriorOf(prior: LakeRow, row: LakeRow, m: Markers) {
    && (forall c :: IsPrior(c, row, m) ==> Rest(c, m.before) in prior && prior[Rest(c, m.before)] == row[c])
    && (forall n :: n in prior ==> IsPrior(m.before + n, row, m))
  }

  predicate IsMoved(c: string, row: LakeRow, m: Markers) {
    c in row && c != m.kind && c != m.total && m.moved <= c && row[c] == Flag(true)
  }

  predicate IsHeld(c: string, row: LakeRow, m: Markers) {
    c in row && c != m.kind && c != m.total && !(m.moved <= c) && m.before <= c
  }

  /** What the loop has gathered from the columns not in `todo`. */
  ghost predicate Gathered(row: LakeRow, m: Markers, todo: set<string>,
                           after: LakeRow, held: LakeRow, movedColumns: set<string>) {
    && after == (map c | c in row && c !in todo && IsAfter(c, m) :: row[c])
    && (forall n :: n in movedColumns <==> m.moved + n !in todo && IsMoved(m.moved + n, row, m))
    && (forall n :: n in held <==> m.before + n !in todo && IsHeld(m.before + n, row, m))
    && (forall n :: n in held ==> held[n] == row[m.before + n])
  }

  lemma OnePrefixed(column: string, prefix: string)
    requires prefix <= column
    ensures forall n :: prefix + n == column <==> n == Rest(column, prefix)
  {
    forall n ensures prefix + n == column <==> n == Rest(column, prefix) {
      assert Rest(prefix + n, prefix) == n;
      assert prefix + Rest(column, prefix) == column;
    }
  }

  lemma GathersMoved(row: LakeRow, m: Markers, todo: set<string>, column: string,
                     after: LakeRow, held: LakeRow, movedColumns: set<string>)
    requires Gathered(row, m, todo, after, held, movedColumns) && column in todo && column in row
    requires column != m.kind && column != m.total && m.moved <= column
    ensures Gathered(row, m, todo - {column}, after, held,
      if row[column] == Flag(true) then movedColumns + {Rest(column, m.moved)} else movedColumns)
  {
    OnePrefixed(column, m.moved);
    assert forall n :: m.before + n == column ==> !IsHeld(m.before + n, row, m);
  }

  lemma GathersHeld(row: LakeRow, m: Markers, todo: set<string>, column: string,
                    after: LakeRow, held: LakeRow, movedColumns: set<string>)
    requires Gathered(row, m, todo, after, held, movedColumns) && column in todo && column in row
    requires column != m.kind && column != m.total && !(m.moved <= column) && m.before <= column
    ensures Gathered(row, m, todo - {column}, after, held[Rest(column, m.before) := row[column]], movedColumns)
  {
    OnePrefixed(column, m.before);
    assert forall n :: m.moved + n == column ==> m.moved <= column;
  }

  lemma GathersElse(row: LakeRow, m: Markers, todo: set<string>, column: string,
                    after: LakeRow, held: LakeRow, movedColumns: set<string>)
    requires Gathered(row, m, todo, after, held, movedColumns) && column in todo && column in row
    requires column == m.kind || column == m.total || IsAfter(column, m)
    ensures Gathered(row, m, todo - {column},
      if IsAfter(column, m) then after[column := row[column]] else after, held, movedColumns)
  {
    assert forall n :: m.moved + n == column ==> m.moved <= column;
    assert forall n :: m.before + n == column ==> m.before <= column;
  }

  lemma GatheredAfter(row: LakeRow, m: Markers, after: LakeRow, held: LakeRow, movedColumns: set<string>)
    requires Gathered(row, m, {}, after, held, movedColumns)
    ensures after == AfterOf(row, m)
  {
    hide IsAfter, IsMoved, IsHeld;
  }

  lemma GatheredPrior(row: LakeRow, m: Markers, after: LakeRow, held: LakeRow, movedColumns: set<string>, prior: LakeRow)
    requires Gathered(row, m, {}, after, held, movedColumns)
    requires prior == map n | n in held && n in movedColumns :: held[n]
    ensures IsPriorOf(prior, row, m)
  {
    forall c | IsPrior(c, row, m)
      ensures Rest(c, m.before) in prior && prior[Rest(c, m.before)] == row[c]
    {
      var n := Rest(c, m.before);
      assert m.before + n == c;
      assert IsHeld(m.before + n, row, m) && IsMoved(m.moved + n, row, m);
    }
    forall n | n in prior ensures IsPrior(m.before + n, row, m) {
      assert Rest(m.before + n, m.before) == n;
    }
  }

  /** One pass over the columns: bookkeeping is dropped, prefixed cells are the older side's, the rest the newer's. */
  method Split(row: LakeRow, m: Markers) returns (after: LakeRow, prior: LakeRow)
    ensures after == AfterOf(row, m)
    ensures IsPriorOf(prior, row, m)
  {
    after, prior := map[], map[];
    var held: LakeRow, movedColumns: set<string> := map[], {};
    var todo := row.Keys;
    while todo != {}
      invariant todo <= row.Keys
      invariant Gathered(row, m, todo, after, held, movedColumns)
      decreases todo
    {
      hide Gathered;
      var column :| column in todo;
      if column == m.kind || column == m.total {
        GathersElse(row, m, todo, column, after, held, movedColumns);
      } else if m.moved <= column {
        GathersMoved(row, m, todo, column, after, held, movedColumns);
        if row[column] == Flag(true) { movedColumns := movedColumns + {column[|m.moved|..]}; }
      } else if m.before <= column {
        GathersHeld(row, m, todo, column, after, held, movedColumns);
        held := held[column[|m.before|..] := row[column]];
      } else {
        GathersElse(row, m, todo, column, after, held, movedColumns);
        after := after[column := row[column]];
      }
      todo := todo - {column};
    }
    prior := map n | n in held && n in movedColumns :: held[n];
    GatheredAfter(row, m, after, held, movedColumns);
    GatheredPrior(row, m, after, held, movedColumns, prior);
  }

  // ---- the round trip ----

  /** The older row's own values, trimmed, of the columns whose value moved. */
  function MovedCells(p: Pair, names: set<string>, keys: seq<string>): LakeRow {
    map c | c in names && c !in keys && Side(p.before, c) != Side(p.after, c) :: Data(Trim(Side(p.before, c)))
  }

  lemma AfterUndone(row: LakeRow, p: Pair, total: nat, names: set<string>, keys: seq<string>, m: Markers)
    requires keys != [] && FreshMarkers(m, names) && Encodes(row, p, total, names, keys, m)
    ensures AfterOf(row, m) == map c | c in names :: Data(Trim(At(ReadSide(p, keys), c)))
  {
    forall c | c in row ensures IsAfter(c, m) <==> c in names {
      if c in names {
        assert !(m.kind <= c) && !(m.total <= c);
      } else {
        SentElse(names, keys, m, c);
      }
    }
  }

  /** A column sent that is none of the row's own is one of the markers'. */
  lemma SentElse(names: set<string>, keys: seq<string>, m: Markers, c: string)
    requires c in Sent(names, keys, m) && c !in names
    ensures !IsAfter(c, m)
  {
    var prior := set d | d in names && d !in keys;
    if c in (set d | d in prior :: m.before + d) {
      var d :| d in prior && c == m.before + d;
      assert m.before <= m.before + d;
    } else if c in (set d | d in prior :: m.moved + d) {
      var d :| d in prior && c == m.moved + d;
      assert m.moved <= m.moved + d;
    }
  }

  /** A flag's column is there exactly for the columns outside the key. */
  lemma FlagThere(names: set<string>, keys: seq<string>, m: Markers, n: string)
    requires FreshMarkers(m, names)
    ensures m.moved + n in Sent(names, keys, m) <==> n in names && n !in keys
  {
    var flag := m.moved + n;
    assert m.moved <= flag;
    assert flag !in names;
    BasesApart(m, n);
    forall c | c in names && c !in keys ensures flag != m.before + c {
      BasesApart(m, c);
    }
    forall c | c in names && c !in keys && flag == m.moved + c ensures c == n {
      assert Rest(flag, m.moved) == n && Rest(m.moved + c, m.moved) == c;
    }
  }

  lemma PriorIff(row: LakeRow, p: Pair, total: nat, names: set<string>, keys: seq<string>, m: Markers, n: string)
    requires keys != [] && FreshMarkers(m, names) && Encodes(row, p, total, names, keys, m)
    ensures IsPrior(m.before + n, row, m) <==> n in names && n !in keys && Side(p.before, n) != Side(p.after, n)
    ensures n in names && n !in keys ==> m.before + n in row && row[m.before + n] == Data(Trim(Side(p.before, n)))
  {
    BasesApart(m, n);
    FlagThere(names, keys, m, n);
    assert Rest(m.before + n, m.before) == n;
    var rest := set c | c in names && c !in keys;
    assert n in rest ==> m.before + n in row && m.moved + n in row;
  }

  lemma PriorUndone(row: LakeRow, p: Pair, total: nat, names: set<string>, keys: seq<string>, m: Markers, prior: LakeRow, n: string)
    requires keys != [] && FreshMarkers(m, names) && Encodes(row, p, total, names, keys, m) && IsPriorOf(prior, row, m)
    ensures n in prior <==> n in MovedCells(p, names, keys)
    ensures n in prior ==> prior[n] == MovedCells(p, names, keys)[n]
  {
    PriorIff(row, p, total, names, keys, m, n);
    assert m.before <= m.before + n && Rest(m.before + n, m.before) == n;
    hide Encodes, FreshMarkers, IsPrior;
  }

  /**
   * A row the keyed query sends splits into the side it is read from and exactly the older
   * values of the columns that moved, whatever the user's columns are called and however
   * alike their trimmed values look.
   */
  lemma SplitUndoesEncoding(row: LakeRow, p: Pair, total: nat, names: set<string>, keys: seq<string>, m: Markers, prior: LakeRow)
    requires keys != [] && FreshMarkers(m, names) && Encodes(row, p, total, names, keys, m) && IsPriorOf(prior, row, m)
    ensures AfterOf(row, m) == map c | c in names :: Data(Trim(At(ReadSide(p, keys), c)))
    ensures prior == MovedCells(p, names, keys)
  {
    AfterUndone(row, p, total, names, keys, m);
    hide Encodes, FreshMarkers, IsPriorOf, MovedCells, AfterOf;
    var cells := MovedCells(p, names, keys);
    forall n ensures n in prior <==> n in cells
             ensures n in prior ==> prior[n] == cells[n]
    {
      PriorUndone(row, p, total, names, keys, m, prior, n);
    }
    assert prior.Keys == cells.Keys;
  }

  /** The side that is there is read, and of two the newer. */
  lemma ReadFrom(p: Pair, names: set<string>, keys: seq<string>)
    requires keys != []
    requires p.before.Some? ==> p.before.value.Keys == names && At(p.before.value, keys[0]) != Null
    requires p.after.Some? ==> p.after.value.Keys == names && At(p.after.value, keys[0]) != Null
    ensures var read: LakeRow := map c | c in names :: Data(Trim(At(ReadSide(p, keys), c)));
      && (p.after.Some? ==> read == Cells(Trimmed(p.after.value)))
      && (p.after.None? && p.before.Some? ==> read == Cells(Trimmed(p.before.value)))
  {
  }

  lemma MovedAre(p: Pair, names: set<string>, keys: seq<string>)
    requires p.before.Some? && p.after.Some? && KeyMatch(keys, p.before.value, p.after.value)
    requires p.before.value.Keys == names && p.after.value.Keys == names
    ensures forall c :: c in MovedCells(p, names, keys) <==> c in names && p.before.value[c] != p.after.value[c]
  {
    forall c ensures c in MovedCells(p, names, keys) <==> c in names && p.before.value[c] != p.after.value[c] {
      assert c in names && c in keys ==> At(p.before.value, c) == At(p.after.value, c);
    }
  }

  /**
   * What the two sides of a split row are, by what the row's key did: an added row's newer side
   * is the newer row and a removed row's the older one; of a changed row it is the newer one,
   * and the cells kept beside it make it the older again.
   */
  lemma SplitGivesSides(row: LakeRow, p: Pair, total: nat, names: set<string>, keys: seq<string>, m: Markers, prior: LakeRow)
    requires keys != [] && FreshMarkers(m, names) && Encodes(row, p, total, names, keys, m) && IsPriorOf(prior, row, m)
    requires p.before.Some? ==> p.before.value.Keys == names && At(p.before.value, keys[0]) != Null
    requires p.after.Some? ==> p.after.value.Keys == names && At(p.after.value, keys[0]) != Null
    ensures p.after.Some? ==> AfterOf(row, m) == Cells(Trimmed(p.after.value))
    ensures p.after.None? && p.before.Some? ==> AfterOf(row, m) == Cells(Trimmed(p.before.value))
    ensures p.before.Some? && p.after.Some? && KeyMatch(keys, p.before.value, p.after.value) ==>
      && AfterOf(row, m) + prior == Cells(Trimmed(p.before.value))
      && forall c :: c in prior <==> c in names && p.before.value[c] != p.after.value[c]
  {
    SplitUndoesEncoding(row, p, total, names, keys, m, prior);
    hide Encodes, FreshMarkers, IsPriorOf, AfterOf;
    ReadFrom(p, names, keys);
    hide ReadSide, MovedCells, Absent, KeyMatch;
    if p.before.Some? && p.after.Some? && KeyMatch(keys, p.before.value, p.after.value) {
      OverlayGivesOlder(p, names, keys);
      MovedAre(p, names, keys);
    }
  }

  /** Trimming shortens nothing but text over the limit, of which it keeps the beginning and marks the cut. */
  lemma TrimKeeps(v: Value)
    ensures !(v.Text? && |v.s| > 512) ==> Trim(v) == v
    ensures v.Text? && |v.s| > 512 ==>
      Trim(v).Text? && |Trim(v).s| == 513 && v.s[..512] == Trim(v).s[..512] && Trim(v).s[512] == '…'
  {
  }

  /** Laying the older values of what moved over the newer row gives the older row, up to trimming. */
  lemma OverlayGivesOlder(p: Pair, names: set<string>, keys: seq<string>)
    requires keys != [] && p.before.Some? && p.after.Some?
    requires p.before.value.Keys == names && p.after.value.Keys == names
    requires KeyMatch(keys, p.before.value, p.after.value)
    ensures Cells(Trimmed(p.after.value)) + MovedCells(p, names, keys) == Cells(Trimmed(p.before.value))
  {
  }

  // ---- folding the rows ----

  /** `row[column]` read as a kind: anything but an addition or a removal is taken for a change. */
  function KindIn(row: LakeRow, column: string): Kind {
    if column in row && row[column].KindCell? then row[column].kind else Changed
  }

  function CountIn(row: LakeRow, column: string): int {
    if column in row && row[column].Count? then row[column].n else 0
  }

  function Last(rows: seq<LakeRow>): LakeRow
    requires rows != []
  {
    rows[|rows| - 1]
  }

  function OfKind(rows: seq<LakeRow>, kind: Kind, m: Markers): seq<LakeRow> {
    if rows == [] then []
    else OfKind(rows[..|rows| - 1], kind, m) + if KindIn(Last(rows), m.kind) == kind then [Last(rows)] else []
  }

  lemma {:induction false} OfKindIn(rows: seq<LakeRow>, kind: Kind, m: Markers, r: LakeRow)
    ensures r in OfKind(rows, kind, m) <==> r in rows && KindIn(r, m.kind) == kind
  {
    if rows != [] {
      assert rows == rows[..|rows| - 1] + [Last(rows)];
      OfKindIn(rows[..|rows| - 1], kind, m, r);
    }
  }

  /** The total the rows carry, the last one's where they differ; zero without a row. */
  function TotalOf(rows: seq<LakeRow>, total: string): int {
    if rows == [] then 0 else CountIn(Last(rows), total)
  }

  function Afters(rows: seq<LakeRow>, m: Markers): seq<LakeRow> {
    if rows == [] then [] else Afters(rows[..|rows| - 1], m) + [AfterOf(Last(rows), m)]
  }

  datatype KeyedDiff = KeyedDiff(
    addedRows: int, removedRows: int, changedRows: int,
    sampleAdded: seq<LakeRow>, sampleRemoved: seq<LakeRow>,
    sampleChangedAfter: seq<LakeRow>, sampleChangedBefore: seq<LakeRow>)
  {
    function CountOf(kind: Kind): int {
      match kind
      case Added => addedRows
      case Removed => removedRows
      case Changed => changedRows
    }

    function SampleOf(kind: Kind): seq<LakeRow> {
      match kind
      case Added => sampleAdded
      case Removed => sampleRemoved
      case Changed => sampleChangedAfter
    }
  }

  /** The diff counts and shows what the rows say of each kind, and pairs each changed row with its older values. */
  ghost predicate FoldsTo(rows: seq<LakeRow>, m: Markers, d: KeyedDiff) {
    && (forall kind :: d.CountOf(kind) == TotalOf(OfKind(rows, kind, m), m.total))
    && (forall kind :: d.SampleOf(kind) == Afters(OfKind(rows, kind, m), m))
    && PriorsOf(d.sampleChangedBefore, OfKind(rows, Changed, m), m)
  }

  ghost predicate PriorsOf(priors: seq<LakeRow>, rows: seq<LakeRow>, m: Markers) {
    |priors| == |rows| && forall i :: 0 <= i < |rows| ==> IsPriorOf(priors[i], rows[i], m)
  }

  lemma OfKindLonger(rows: seq<LakeRow>, row: LakeRow, kind: Kind, m: Markers)
    ensures OfKind(rows + [row], kind, m) == if KindIn(row, m.kind) == kind then OfKind(rows, kind, m) + [row] else OfKind(rows, kind, m)
  {
    assert (rows + [row])[..|rows + [row]| - 1] == rows;
  }

  lemma AftersLonger(rows: seq<LakeRow>, row: LakeRow, m: Markers)
    ensures Afters(rows + [row], m) == Afters(rows, m) + [AfterOf(row, m)]
  {
    assert (rows + [row])[..|rows + [row]| - 1] == rows;
  }

  /** One more row folded in. */
  function Folded(d: KeyedDiff, kind: Kind, total: int, after: LakeRow, prior: LakeRow): KeyedDiff {
    match kind
    case Added => d.(addedRows := total, sampleAdded := d.sampleAdded + [after])
    case Removed => d.(removedRows := total, sampleRemoved := d.sampleRemoved + [after])
    case Changed =>
      d.(changedRows := total, sampleChangedAfter := d.sampleChangedAfter + [after],
         sampleChangedBefore := d.sampleChangedBefore + [prior])
  }

  lemma FoldStep(rows: seq<LakeRow>, row: LakeRow, m: Markers, d: KeyedDiff, prior: LakeRow)
    requires FoldsTo(rows, m, d) && IsPriorOf(prior, row, m)
    ensures FoldsTo(rows + [row], m, Folded(d, KindIn(row, m.kind), CountIn(row, m.total), AfterOf(row, m), prior))
  {
    hide OfKind, IsPriorOf, AfterOf, Afters, KindIn, CountIn;
    var e := Folded(d, KindIn(row, m.kind), CountIn(row, m.total), AfterOf(row, m), prior);
    forall kind
      ensures e.CountOf(kind) == TotalOf(OfKind(rows + [row], kind, m), m.total)
      ensures e.SampleOf(kind) == Afters(OfKind(rows + [row], kind, m), m)
    {
      OfKindLonger(rows, row, kind, m);
      AftersLonger(OfKind(rows, kind, m), row, m);
    }
    OfKindLonger(rows, row, Changed, m);
  }

  /** Reads the totals and the samples of each kind off the rows the keyed query sent. */
  method SplitKeyedDiffRows(rows: seq<LakeRow>, m: Markers) returns (d: KeyedDiff)
    ensures FoldsTo(rows, m, d)
  {
    d := KeyedDiff(0, 0, 0, [], [], [], []);
    var i := 0;
    while i < |rows|
      invariant 0 <= i <= |rows| && FoldsTo(rows[..i], m, d)
    {
      hide FoldsTo, IsPriorOf, AfterOf;
      var row := rows[i];
      var after, prior := Split(row, m);
      FoldStep(rows[..i], row, m, d, prior);
      assert rows[..i + 1] == rows[..i] + [row];
      var count := CountIn(row, m.total);
      var kind := KindIn(row, m.kind);
      if kind == Added {
        d := d.(addedRows := count, sampleAdded := d.sampleAdded + [after]);
      } else if kind == Removed {
        d := d.(removedRows := count, sampleRemoved := d.sampleRemoved + [after]);
      } else {
        d := d.(changedRows := count, sampleChangedAfter := d.sampleChangedAfter + [after],
                sampleChangedBefore := d.sampleChangedBefore + [prior]);
      }
      i := i + 1;
    }
    assert rows[..i] == rows;
  }

  ghost predicate SentFor(r: LakeRow, from: seq<Row>, to: seq<Row>, names: set<string>, keys: seq<string>,
                          values: seq<string>, m: Markers)
    requires keys != []
  {
    exists p ::
      && p in Join(from, to, keys) && Acted(p, keys, values)
      && Encodes(r, p, KeyedTotal(from, to, KindOf(p, keys), keys, values), names, keys, m)
  }

  /** What the keyed query sends: at most a few rows of each kind, each with its kind's total. */
  ghost predicate Sends(rows: seq<LakeRow>, from: seq<Row>, to: seq<Row>, names: set<string>, keys: seq<string>,
                        values: seq<string>, m: Markers)
    requires keys != []
  {
    && (forall r :: r in rows ==> SentFor(r, from, to, names, keys, values, m))
    && (forall kind :: |OfKind(rows, kind, m)| == Min(SAMPLE_LIMIT, KeyedTotal(from, to, kind, keys, values)))
  }

  lemma SentTotal(r: LakeRow, from: seq<Row>, to: seq<Row>, names: set<string>, keys: seq<string>,
                  values: seq<string>, m: Markers)
    requires keys != [] && SentFor(r, from, to, names, keys, values, m)
    ensures CountIn(r, m.total) == KeyedTotal(from, to, KindIn(r, m.kind), keys, values)
  {
    hide KeyedTotal, Join, Acted;
  }

  /** The exact totals are recovered, however few of the rows are sent. */
  lemma KeyedTotalsRecovered(rows: seq<LakeRow>, from: seq<Row>, to: seq<Row>, names: set<string>, keys: seq<string>,
                             values: seq<string>, m: Markers, d: KeyedDiff, kind: Kind)
    requires keys != [] && Sends(rows, from, to, names, keys, values, m) && FoldsTo(rows, m, d)
    ensures d.CountOf(kind) == KeyedTotal(from, to, kind, keys, values)
  {
    hide KeyedTotal, SentFor;
    var ours := OfKind(rows, kind, m);
    if ours != [] {
      OfKindIn(rows, kind, m, Last(ours));
      SentTotal(Last(ours), from, to, names, keys, values, m);
    }
  }

  // ---- the keyless query's rows ----

  /** The row the keyless query sends for a distinct row that moved. */
  ghost predicate EncodesNet(row: LakeRow, r: Row, from: seq<Row>, to: seq<Row>, net: string, total: string) {
    && row.Keys == r.Keys + {net, total}
    && row[net] == Count(Net(from, to, r))
    && row[total] == Count(SideTotal(from, to, Net(from, to, r) > 0))
    && forall c :: c in r && c != net && c != total ==> row[c] == Data(Trim(r[c]))
  }

  function OfSide(rows: seq<LakeRow>, added: bool, net: string): seq<LakeRow> {
    if rows == [] then []
    else OfSide(rows[..|rows| - 1], added, net) + if (CountIn(Last(rows), net) > 0) == added then [Last(rows)] else []
  }

  lemma {:induction false} OfSideIn(rows: seq<LakeRow>, added: bool, net: string, r: LakeRow)
    ensures r in OfSide(rows, added, net) <==> r in rows && (CountIn(r, net) > 0) == added
  {
    if rows != [] {
      assert rows == rows[..|rows| - 1] + [Last(rows)];
      OfSideIn(rows[..|rows| - 1], added, net, r);
    }
  }

  function Contents(rows: seq<LakeRow>, net: string, total: string): seq<LakeRow> {
    if rows == [] then [] else Contents(rows[..|rows| - 1], net, total) + [Last(rows) - {net, total}]
  }

  datatype KeylessDiff = KeylessDiff(
    addedRows: int, removedRows: int, sampleAdded: seq<LakeRow>, sampleRemoved: seq<LakeRow>)

  ghost predicate FoldsToKeyless(rows: seq<LakeRow>, net: string, total: string, d: KeylessDiff) {
    && d.addedRows == TotalOf(OfSide(rows, true, net), total)
    && d.removedRows == TotalOf(OfSide(rows, false, net), total)
    && d.sampleAdded == Contents(OfSide(rows, true, net), net, total)
    && d.sampleRemoved == Contents(OfSide(rows, false, net), net, total)
  }

  lemma SideLonger(rows: seq<LakeRow>, row: LakeRow, added: bool, net: string, total: string)
    ensures OfSide(rows + [row], added, net)
      == if (CountIn(row, net) > 0) == added then OfSide(rows, added, net) + [row] else OfSide(rows, added, net)
    ensures Contents(rows + [row], net, total) == Contents(rows, net, total) + [row - {net, total}]
  {
    assert (rows + [row])[..|rows + [row]| - 1] == rows;
  }

  lemma TotalOfLonger(rows: seq<LakeRow>, row: LakeRow, total: string)
    ensures TotalOf(rows + [row], total) == CountIn(row, total)
  {
  }

  /** Reads the two totals and the two samples off the rows the keyless query sent. */
  method SplitDiffRows(rows: seq<LakeRow>, net: string, total: string) returns (d: KeylessDiff)
    ensures FoldsToKeyless(rows, net, total, d)
  {
    d := KeylessDiff(0, 0, [], []);
    var i := 0;
    while i < |rows|
      invariant 0 <= i <= |rows| && FoldsToKeyless(rows[..i], net, total, d)
    {
      hide CountIn, OfSide, Contents, TotalOf;
      var row := rows[i];
      TotalOfLonger(OfSide(rows[..i], CountIn(row, net) > 0, net), row, total);
      assert rows[..i + 1] == rows[..i] + [row];
      SideLonger(rows[..i], row, true, net, total);
      SideLonger(rows[..i], row, false, net, total);
      SideLonger(OfSide(rows[..i], CountIn(row, net) > 0, net), row, true, net, total);
      if CountIn(row, net) > 0 {
        d := d.(addedRows := CountIn(row, total), sampleAdded := d.sampleAdded + [row - {net, total}]);
      } else {
        d := d.(removedRows := CountIn(row, total), sampleRemoved := d.sampleRemoved + [row - {net, total}]);
      }
      i := i + 1;
    }
    assert rows[..i] == rows;
  }

  ghost predicate NetSentFor(row: LakeRow, from: seq<Row>, to: seq<Row>, net: string, total: string) {
    exists r :: Net(from, to, r) != 0 && EncodesNet(row, r, from, to, net, total)
  }

  /** What the keyless query sends: the distinct rows that moved, at most a few of each side. */
  ghost predicate SendsNet(rows: seq<LakeRow>, from: seq<Row>, to: seq<Row>, net: string, total: string) {
    && (forall row :: row in rows ==> NetSentFor(row, from, to, net, total))
    && |OfSide(rows, true, net)| == Min(SAMPLE_LIMIT, |Moved(from, to, true)|)
    && |OfSide(rows, false, net)| == Min(SAMPLE_LIMIT, |Moved(from, to, false)|)
  }

  /** The folded totals are the sizes of the two multiset differences, however few rows are sent. */
  lemma KeylessTotalsRecovered(rows: seq<LakeRow>, from: seq<Row>, to: seq<Row>, net: string, total: string, d: KeylessDiff)
    requires SendsNet(rows, from, to, net, total) && FoldsToKeyless(rows, net, total, d) && net != total
    ensures d.addedRows == |multiset(to) - multiset(from)|
    ensures d.removedRows == |multiset(from) - multiset(to)|
  {
    TotalsAreDifferences(from, to);
    OneSideRecovered(rows, from, to, net, total, true);
    OneSideRecovered(rows, from, to, net, total, false);
  }

  lemma OneSideRecovered(rows: seq<LakeRow>, from: seq<Row>, to: seq<Row>, net: string, total: string, added: bool)
    requires SendsNet(rows, from, to, net, total) && net != total
    ensures TotalOf(OfSide(rows, added, net), total) == SideTotal(from, to, added)
  {
    var ours := OfSide(rows, added, net);
    if ours == [] {
      assert Moved(from, to, added) == {};
    } else {
      OfSideIn(rows, added, net, Last(ours));
      assert NetSentFor(Last(ours), from, to, net, total);
    }
  }

  /** A sampled row without its two marker columns is the row that moved, trimmed. */
  lemma NetRowContent(row: LakeRow, r: Row, from: seq<Row>, to: seq<Row>, net: string, total: string)
    requires EncodesNet(row, r, from, to, net, total)
    requires net != total && forall c :: c in r ==> !(net <= c) && !(total <= c)
    ensures row - {net, total} == Cells(Trimmed(r))
  {
  }
}
