/**
 * Loading versions into a resource's table (ADR-043 layer 2): the one write path, the key
 * two versions share, and what the recorded snapshots read back.
 */
module LakeIngest {
  import opened Basics
  import opened LakeTables
  import opened LakeDiff

  type Key = Option<seq<string>>

  // ---- the settled column layer ----

  /** No key and an empty list of key columns are the same thing. */
  function KeyColumnsOf(columns: Key): Key {
    if columns.None? || columns.value == [] then None else columns
  }

  predicate SameKeyColumns(a: Key, b: Key) {
    if a.None? || b.None? then a == b
    else |a.value| == |b.value| && forall i :: 0 <= i < |a.value| ==> a.value[i] == b.value[i]
  }

  /** Two versions share a key when they name the same columns, whatever the order. */
  function SharedKeyColumns(a: Key, b: Key): Key {
    if SameKeyColumns(a, b) then a else None
  }

  /** A shared key is both versions' own, order and all; the question is symmetric. */
  lemma SharedIsBoth(a: Key, b: Key)
    ensures SharedKeyColumns(a, b) == if a == b then a else None
    ensures SharedKeyColumns(a, b) == SharedKeyColumns(b, a)
  {
    if a.Some? && b.Some? && SameKeyColumns(a, b) { assert a.value == b.value; }
  }

  // ---- the session's statements ----

  datatype Contents = Contents(columns: seq<Column>, rows: seq<Row>)

  predicate WellFormed(c: Contents) { Fits(c.rows, Names(c.columns)) }

  /** The same columns, and the same rows however they are stored. */
  predicate SameContents(a: Contents, b: Contents) {
    a.columns == b.columns && multiset(a.rows) == multiset(b.rows)
  }

  datatype Sql =
    | CreateAs(source: Contents)
    | Begin
    | Commit
    | Rollback
    | DeleteAll
    | InsertFrom(rows: seq<Row>)
    | MergeUpsert(rows: seq<Row>, keys: seq<string>, values: seq<string>)
    | MergeDelete(rows: seq<Row>, keys: seq<string>)

  function Written(c: Contents, st: Sql): Contents {
    match st
    case DeleteAll => c.(rows := [])
    case InsertFrom(rows) => c.(rows := c.rows + rows)
    case MergeUpsert(rows, keys, values) => c.(rows := Upsert(c.rows, rows, keys, values))
    case MergeDelete(rows, keys) => c.(rows := RemoveUnmatched(c.rows, rows, keys))
    case _ => c
  }

  /** What may go wrong from outside: which statement fails, and whether a commit that changes nothing makes a snapshot. */
  datatype Luck = Luck(failing: set<nat>, elides: bool)

  /** None of the first `n` statements sent fails. */
  predicate NoneFails(luck: Luck, n: nat) { forall i: nat :: i < n ==> i !in luck.failing }

  /** The statements that fill the table from a version whose columns are the table's. */
  function Refill(source: Contents, key: Key): seq<Sql> {
    if key.Some? then
      [MergeUpsert(source.rows, key.value, ValuesOf(source.columns, key.value)), MergeDelete(source.rows, key.value)]
    else [DeleteAll, InsertFrom(source.rows)]
  }

  /** All that a load sends: one statement to make the table anew, or the refill in its transaction. */
  function Sends(current: Option<Contents>, source: Contents, key: Key): seq<Sql> {
    if current.None? || !SameColumns(current.value.columns, source.columns) then [CreateAs(source)]
    else [Begin] + Refill(source, key) + [Commit]
  }

  function WrittenAll(c: Contents, sts: seq<Sql>): Contents {
    if sts == [] then c else Written(WrittenAll(c, sts[..|sts| - 1]), sts[|sts| - 1])
  }

  /** Both ways of filling the table leave the incoming rows and no others. */
  lemma RefillReplaces(c: Contents, source: Contents, key: Key)
    requires WellFormed(c) && WellFormed(source) && c.columns == source.columns
    requires key.Some? ==>
      && (forall k :: k in key.value ==> k in Names(source.columns))
      && Identifies(key.value, multiset(c.rows)) && Identifies(key.value, multiset(source.rows))
    ensures SameContents(WrittenAll(c, Refill(source, key)), source)
  {
    hide WrittenAll, Identifies, Fits, KeyMatch, ValuesDiffer, Upsert, RemoveUnmatched, ValuesOf;
    var sts := Refill(source, key);
    TwoWritten(c, sts[0], sts[1]);
    assert sts == [sts[0], sts[1]];
    if key.Some? {
      ValuesOfIsRest(source.columns, key.value);
      KeyedLoadReplaces(c.rows, source.rows, Names(c.columns), key.value, ValuesOf(source.columns, key.value));
    } else {
      assert [] + source.rows == source.rows;
    }
  }

  // ---- what a refill writes ----

  /** How many rows a statement inserts, updates or deletes. */
  function Touches(c: Contents, st: Sql): nat {
    match st
    case DeleteAll => |c.rows|
    case InsertFrom(rows) => |rows|
    case MergeUpsert(rows, keys, values) => |ToUpdate(c.rows, rows, keys, values)| + |Unmatched(rows, c.rows, keys)|
    case MergeDelete(rows, keys) => |Unmatched(c.rows, rows, keys)|
    case _ => 0
  }

  function TouchesAll(c: Contents, sts: seq<Sql>): nat
    decreases |sts|
  {
    if sts == [] then 0 else Touches(c, sts[0]) + TouchesAll(Written(c, sts[0]), sts[1..])
  }

  /**
   * What the key is for: a keyed refill writes just the rows the keyed diff shows, none for a
   * version that changes nothing, where the other writes every row of both.
   */
  lemma KeyedRefillTouches(c: Contents, source: Contents, key: Key)
    requires WellFormed(c) && WellFormed(source) && c.columns == source.columns
    requires key.Some? ==>
      && key.value != [] && (forall k :: k in key.value ==> k in Names(source.columns))
      && Identifies(key.value, multiset(c.rows)) && Identifies(key.value, multiset(source.rows))
    ensures key.None? ==> TouchesAll(c, Refill(source, key)) == |c.rows| + |source.rows|
    ensures key.Some? ==>
      var values := ValuesOf(source.columns, key.value);
      TouchesAll(c, Refill(source, key)) ==
        KeyedTotal(c.rows, source.rows, Added, key.value, values) + KeyedTotal(c.rows, source.rows, Removed, key.value, values)
          + KeyedTotal(c.rows, source.rows, Changed, key.value, values)
  {
    hide Identifies, Fits, KeyMatch, ValuesDiffer, Upsert, RemoveUnmatched, ValuesOf, KeyedTotal, ToUpdate, Unmatched, SideTotal;
    var sts := Refill(source, key);
    assert sts == [sts[0], sts[1]] && sts[1..] == [sts[1]] && sts[1..][1..] == [];
    assert TouchesAll(Written(Written(c, sts[0]), sts[1]), []) == 0;
    if key.Some? {
      ValuesOfIsRest(source.columns, key.value);
      DiffsAndLoadAgree(c.rows, source.rows, Names(c.columns), key.value, ValuesOf(source.columns, key.value));
    }
  }

  lemma TwoWritten(c: Contents, a: Sql, b: Sql)
    ensures WrittenAll(c, [a, b]) == Written(Written(c, a), b)
  {
    hide Written;
    assert [a, b][..1] == [a] && [a][..0] == [];
    assert WrittenAll(c, [a]) == Written(WrittenAll(c, []), a);
  }

  /**
   * The table in its catalog: what is committed, what a transaction has written, and every
   * snapshot. `sent` is history: every statement sent.
   */
  class Table {
    var current: Option<Contents>
    var working: Option<Contents>
    var snapshots: seq<Contents>
    ghost var sent: seq<Sql>

    ghost predicate Valid()
      reads this
    {
      && (current.Some? <==> |snapshots| > 0)
      && (current.Some? ==> WellFormed(current.value) && SameContents(current.value, snapshots[|snapshots| - 1]))
    }

    constructor ()
      ensures Valid() && current == None && working == None && snapshots == []
    {
      current, working, snapshots, sent := None, None, [], [];
    }

    method Publish(c: Contents, elides: bool)
      requires Valid() && WellFormed(c)
      modifies this
      ensures Valid() && current == Some(c) && working == old(working) && sent == old(sent)
      ensures old(snapshots) <= snapshots && |snapshots| > 0
    {
      if !(elides && current.Some? && SameContents(current.value, c)) {
        snapshots := snapshots + [c];
      }
      current := Some(c);
    }

    /** One statement; a statement that fails changes nothing. */
    method Run(st: Sql, fails: bool, elides: bool) returns (ok: bool)
      requires Valid()
      requires !(st.Begin? || st.CreateAs?) ==> working.Some?
      requires st.CreateAs? ==> WellFormed(st.source)
      requires st.Commit? ==> WellFormed(working.value)
      modifies this
      ensures Valid() && ok == !fails && old(snapshots) <= snapshots && sent == old(sent) + [st]
      ensures !ok || (!st.CreateAs? && !st.Commit?) ==> current == old(current) && snapshots == old(snapshots)
      ensures !ok ==> working == old(working)
      ensures ok && st.CreateAs? ==> current == Some(st.source) && working == old(working)
      ensures ok && st.Begin? ==> working == old(current)
      ensures ok && st.Commit? ==> current == old(working) && working == None
      ensures ok && st.Rollback? ==> working == None
      ensures ok && !st.CreateAs? && !st.Begin? && !st.Commit? && !st.Rollback? ==>
        working == Some(Written(old(working).value, st))
    {
      sent := sent + [st];
      if fails { return false; }
      ok := true;
      match st
      case CreateAs(source) => Publish(source, elides);
      case Begin => working := current;
      case Commit =>
        Publish(working.value, elides);
        working := None;
      case Rollback => working := None;
      case _ => working := Some(Written(working.value, st));
    }

    /** Run the statements in one transaction: all of them, or none. */
    method RunAll(statements: seq<Sql>, luck: Luck) returns (ok: bool)
      requires Valid() && current.Some? && WellFormed(WrittenAll(current.value, statements))
      requires forall st :: st in statements ==> !st.CreateAs? && !st.Begin? && !st.Commit? && !st.Rollback?
      modifies this
      ensures Valid() && old(snapshots) <= snapshots
      ensures ok <==> NoneFails(luck, |statements| + 2)
      ensures ok ==> current == Some(WrittenAll(old(current).value, statements))
      ensures ok ==> sent == old(sent) + ([Begin] + statements + [Commit])
      ensures !ok ==> current == old(current) && snapshots == old(snapshots)
    {
      hide Written;
      ok := Run(Begin, 0 in luck.failing, luck.elides);
      if !ok { return; }
      var i := 0;
      while ok && i < |statements|
        invariant 0 <= i <= |statements| && Valid() && working.Some?
        invariant current == old(current) && snapshots == old(snapshots)
        invariant ok ==> working.value == WrittenAll(old(current).value, statements[..i])
        invariant ok ==> sent == old(sent) + ([Begin] + statements[..i])
        invariant if ok then NoneFails(luck, i + 1) else !NoneFails(luck, |statements| + 1)
        decreases |statements| - i, ok
      {
        ok := Run(statements[i], i + 1 in luck.failing, luck.elides);
        if ok {
          assert statements[..i + 1][..i] == statements[..i] && statements[..i + 1] == statements[..i] + [statements[i]];
          i := i + 1;
        }
      }
      if ok {
        assert statements[..i] == statements;
        ok := Run(Commit, i + 1 in luck.failing, luck.elides);
      }
      if !ok {
        // A rollback that fails as well is passed over: the transaction dies with its session
        var _ := Run(Rollback, i + 2 in luck.failing, luck.elides);
      }
    }

    /**
     * Put a version's rows into the table, as one snapshot. Given a key it must be one that
     * identifies the rows on both ends.
     */
    method LoadContents(source: Contents, key: Key, luck: Luck) returns (ok: bool)
      requires Valid() && current.Some? && WellFormed(source)
      requires key.Some? ==>
        && (forall k :: k in key.value ==> k in Names(source.columns))
        && Identifies(key.value, multiset(current.value.rows)) && Identifies(key.value, multiset(source.rows))
      modifies this
      ensures Valid() && old(snapshots) <= snapshots
      ensures ok <==> NoneFails(luck, |Sends(old(current), source, key)|)
      ensures ok ==> sent == old(sent) + Sends(old(current), source, key)
      ensures ok ==> current.Some? && SameContents(current.value, source)
      ensures !ok ==> current == old(current) && snapshots == old(snapshots)
    {
      hide Identifies, Fits, SameContents, Written, WrittenAll, Names;
      SameColumnsIsEquality(current.value.columns, source.columns);
      if !SameColumns(current.value.columns, source.columns) {
        ok := Run(CreateAs(source), 0 in luck.failing, luck.elides);
        SameAsItself(source);
        return;
      }
      var statements := Refill(source, key);
      RefillReplaces(current.value, source, key);
      SameFits(WrittenAll(current.value, statements), source);
      ok := RunAll(statements, luck);
    }

    /** Ingest one version, and say which snapshot reads it back. */
    method Ingest(source: Contents, key: Key, luck: Luck) returns (r: Option<nat>)
      requires Valid() && WellFormed(source)
      requires key.Some? && current.Some? ==>
        && (forall k :: k in key.value ==> k in Names(source.columns))
        && Identifies(key.value, multiset(current.value.rows)) && Identifies(key.value, multiset(source.rows))
      modifies this
      ensures Valid() && old(snapshots) <= snapshots
      ensures r.Some? <==> NoneFails(luck, |Sends(old(current), source, key)|)
      ensures r.Some? ==> sent == old(sent) + Sends(old(current), source, key)
      ensures r.Some? ==>
        && current.Some? && SameContents(current.value, source)
        && r.value == |snapshots| - 1 && SameContents(snapshots[r.value], source)
      ensures r.None? ==> current == old(current) && snapshots == old(snapshots)
    {
      var ok;
      if current.Some? {
        ok := LoadContents(source, key, luck);
      } else {
        ok := Run(CreateAs(source), 0 in luck.failing, luck.elides);
      }
      r := if ok then Some(|snapshots| - 1) else None;
    }
  }

  lemma SameAsItself(c: Contents)
    ensures SameContents(c, c)
  {
  }

  lemma SameFits(a: Contents, b: Contents)
    requires SameContents(a, b) && WellFormed(b)
    ensures WellFormed(a)
  {
    forall r | r in a.rows ensures r.Keys == Names(a.columns) {
      assert r in multiset(a.rows) && r in multiset(b.rows);
    }
  }

  // ---- the history of versions ----

  datatype Version = Version(contents: Contents, keyColumns: Key)

  datatype Recorded = Recorded(version: Version, snapshot: nat)

  datatype Loaded = Refused(fault: KeyFault) | Failed | Loaded(snapshot: nat)

  /** A version the latest snapshot was recorded for. */
  ghost predicate IsHead(recorded: seq<Recorded>, r: Recorded) {
    r in recorded && forall other :: other in recorded ==> other.snapshot <= r.snapshot
  }

  /** The key to load under: the version's own, if what the table holds was loaded under the same and is not being purged. */
  ghost predicate LoadedUnder(recorded: seq<Recorded>, v: Version, purging: bool, key: Key) {
    if recorded == [] || purging || v.keyColumns.None? then key.None?
    else exists head :: IsHead(recorded, head) && key == if head.version.keyColumns == v.keyColumns then v.keyColumns else None
  }

  /** Loaded exactly if none of the statements for this key fails, and then those were the statements sent. */
  predicate Loads(current: Option<Contents>, source: Contents, key: Key, luck: Luck, before: seq<Sql>, after: seq<Sql>, r: Loaded) {
    && (r.Loaded? <==> NoneFails(luck, |Sends(current, source, key)|))
    && (r.Loaded? ==> after == before + Sends(current, source, key))
  }

  class History {
    const table: Table
    var recorded: seq<Recorded>

    /**
     * Every recorded snapshot reads back its own version, whose rows its key identifies, and
     * whatever was loaded last, under whichever name, is what the table holds.
     */
    ghost predicate Valid()
      reads this, table
    {
      && table.Valid()
      && (|recorded| > 0 <==> table.current.Some?)
      && (|recorded| > 0 ==> recorded[|recorded| - 1].snapshot == |table.snapshots| - 1)
      && (forall r :: r in recorded ==>
            && r.snapshot < |table.snapshots|
            && SameContents(table.snapshots[r.snapshot], r.version.contents)
            && (r.version.keyColumns.Some? ==> Identifies(r.version.keyColumns.value, multiset(r.version.contents.rows))))
    }

    constructor ()
      ensures Valid() && recorded == [] && fresh(table)
    {
      table := new Table();
      recorded := [];
    }

    /** The key the contents to load onto were identified by: that of a version with the latest snapshot. */
    method HeadKey() returns (head: Option<Key>)
      requires Valid()
      ensures head.None? <==> recorded == []
      ensures head.Some? ==> exists r :: IsHead(recorded, r) && r.version.keyColumns == head.value
      ensures head.Some? ==>
        && table.current.Some?
        && (head.value.Some? ==> Identifies(head.value.value, multiset(table.current.value.rows)))
    {
      if recorded == [] { return None; }
      assert recorded[|recorded| - 1] in recorded;
      var h :| 0 <= h < |recorded| && forall r :: r in recorded ==> r.snapshot <= recorded[h].snapshot;
      assert recorded[h] in recorded && recorded[h].snapshot == |table.snapshots| - 1;
      head := Some(recorded[h].version.keyColumns);
      assert IsHead(recorded, recorded[h]);
    }

    /**
     * One version of the history: it is refused for a fault in its key, and otherwise loaded
     * row by row if its key is also the table's, whole if not. `purging` is a head that is being purged,
     * whose key counts for nothing.
     */
    method LoadVersion(v: Version, purging: bool, luck: Luck) returns (r: Loaded)
      requires Valid() && WellFormed(v.contents)
      modifies this, table
      ensures Valid()
      ensures r.Refused? <==> v.keyColumns.Some? && FaultOf(v.contents.columns, v.contents.rows, v.keyColumns.value).Some?
      ensures r.Refused? ==> Some(r.fault) == FaultOf(v.contents.columns, v.contents.rows, v.keyColumns.value)
      ensures !r.Refused? ==> exists key ::
        LoadedUnder(old(recorded), v, purging, key) && Loads(old(table.current), v.contents, key, luck, old(table.sent), table.sent, r)
      ensures r.Loaded? ==>
        && recorded == old(recorded) + [Recorded(v, r.snapshot)]
        && SameContents(table.current.value, v.contents)
      ensures !r.Loaded? ==> recorded == old(recorded) && table.current == old(table.current)
      ensures old(table.snapshots) <= table.snapshots
    {
      hide FaultOf, SharedKeyColumns, SameContents, Identifies, Fits;
      if v.keyColumns.Some? {
        var fault := FaultOf(v.contents.columns, v.contents.rows, v.keyColumns.value);
        FaultFree(v.contents.columns, v.contents.rows, v.keyColumns.value);
        if fault.Some? { return Refused(fault.value); }
      }
      var head := HeadKey();
      var key := if v.keyColumns.Some? && head.Some? && !purging
                 then SharedKeyColumns(head.value, v.keyColumns) else None;
      if head.Some? { SharedIsBoth(head.value, v.keyColumns); }
      assert LoadedUnder(recorded, v, purging, key);
      var snapshot := table.Ingest(v.contents, key, luck);
      if snapshot.None? { return Failed; }
      recorded := recorded + [Recorded(v, snapshot.value)];
      r := Loaded(snapshot.value);
    }

    /**
     * Load any sequence of versions, as a rebuild does: those refused or failed are left out,
     * and only a key fault or a failing statement leaves one out.
     */
    method LoadVersions(versions: seq<Version>, luck: seq<Luck>) returns (results: seq<Loaded>)
      requires Valid() && |luck| == |versions| && forall v :: v in versions ==> WellFormed(v.contents)
      modifies this, table
      ensures Valid() && |results| == |versions| && old(recorded) <= recorded
      ensures Kept(recorded[|old(recorded)|..], versions, results)
      ensures forall i :: 0 <= i < |versions| ==> Answers(versions[i], luck[i], results[i])
    {
      hide SameContents, FaultOf, Valid, WellFormed, Sends, NoneFails, Settled, LoadedUnder;
      results := [];
      var kept: seq<Recorded> := [];
      while |results| < |versions|
        invariant Valid() && |results| <= |versions|
        invariant recorded == old(recorded) + kept && Kept(kept, versions[..|results|], results)
        invariant forall i :: 0 <= i < |results| ==> Answers(versions[i], luck[i], results[i])
      {
        var i := |results|;
        SettledFits(versions[i]);
        ghost var before := table.current;
        var r := LoadVersion(Settled(versions[i]), false, luck[i]);
        forall key ensures Lucky(luck[i], |Sends(before, Settled(versions[i]).contents, key)|) {
          LuckyLoads(before, Settled(versions[i]).contents, key, luck[i]);
        }
        SettledAnswers(versions[i], luck[i], r);
        results := results + [r];
        assert versions[..i + 1][..i] == versions[..i] && results[..i] == results[..|results| - 1];
        if r.Loaded? {
          var rec := Recorded(Settled(versions[i]), r.snapshot);
          SettledRecorded(versions[i], r.snapshot);
          assert (kept + [rec])[..|kept + [rec]| - 1] == kept;
          kept := kept + [rec];
        }
      }
      assert versions[..|results|] == versions;
    }
  }

  /** A version with its stored key columns settled. */
  function Settled(v: Version): Version { v.(keyColumns := KeyColumnsOf(v.keyColumns)) }

  lemma SettledFits(v: Version)
    requires WellFormed(v.contents)
    ensures WellFormed(Settled(v).contents)
  {
  }

  /** A version's stored key, if it names any column. */
  predicate HasKey(v: Version) { v.keyColumns.Some? && v.keyColumns.value != [] }

  /** What is wrong with a version as it is stored: nothing ever, where it has no key. */
  function FaultIn(v: Version): Option<KeyFault> {
    if HasKey(v) then FaultOf(v.contents.columns, v.contents.rows, v.keyColumns.value) else None
  }

  lemma SettledFaults(v: Version)
    ensures FaultIn(v) == if Settled(v).keyColumns.None? then None
                          else FaultOf(v.contents.columns, v.contents.rows, Settled(v).keyColumns.value)
  {
  }

  /** Refused for its key fault and nothing else, and told which; loaded if no statement fails, and not if the first does. */
  predicate Answers(v: Version, luck: Luck, r: Loaded) {
    && (match FaultIn(v)
        case Some(fault) => r == Refused(fault)
        case None => !r.Refused? && (luck.failing == {} ==> r.Loaded?) && (0 in luck.failing ==> r == Failed))
  }

  lemma SettledAnswers(v: Version, luck: Luck, r: Loaded)
    requires var w := Settled(v);
      && (r.Refused? <==> w.keyColumns.Some? && FaultOf(w.contents.columns, w.contents.rows, w.keyColumns.value).Some?)
      && (r.Refused? ==> Some(r.fault) == FaultOf(w.contents.columns, w.contents.rows, w.keyColumns.value))
      && (!r.Refused? ==> (luck.failing == {} ==> r.Loaded?) && (0 in luck.failing ==> !r.Loaded?))
    ensures Answers(v, luck, r)
  {
    SettledFaults(v);
  }

  /** With nothing failing all `n` statements succeed, and with the first failing they do not. */
  predicate Lucky(luck: Luck, n: nat) {
    (luck.failing == {} ==> NoneFails(luck, n)) && (0 in luck.failing ==> !NoneFails(luck, n))
  }

  lemma LuckyLoads(current: Option<Contents>, source: Contents, key: Key, luck: Luck)
    ensures Lucky(luck, |Sends(current, source, key)|)
  {
    assert |Sends(current, source, key)| > 0;
  }

  /** What is recorded of a version loaded: its contents, and its key if it has one. */
  predicate Records(rec: Recorded, v: Version, snapshot: nat) {
    && rec.snapshot == snapshot && rec.version.contents == v.contents
    && rec.version.keyColumns == if HasKey(v) then v.keyColumns else None
  }

  lemma SettledRecorded(v: Version, snapshot: nat)
    ensures Records(Recorded(Settled(v), snapshot), v, snapshot)
  {
  }

  /** The versions that were loaded, in order, each with its snapshot. */
  ghost predicate Kept(recorded: seq<Recorded>, versions: seq<Version>, results: seq<Loaded>)
    requires |results| == |versions|
  {
    if results == [] then recorded == []
    else
      var n := |results| - 1;
      if results[n].Loaded? then
        && recorded != [] && Records(recorded[|recorded| - 1], versions[n], results[n].snapshot)
        && Kept(recorded[..|recorded| - 1], versions[..n], results[..n])
      else Kept(recorded, versions[..n], results[..n])
  }
}
