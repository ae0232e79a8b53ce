/**
 * Rows, keys and the two MERGE statements of a keyed load, by their meaning.
 *
 * A table is a sequence of rows that stands for the multiset of them: nothing here depends on
 * the order.
 */
module LakeTables {
  import opened Basics

  datatype Value = Null | Num(n: int) | Text(s: string)

  type Row = map<string, Value>

  datatype Column = Column(name: string, typ: string)

  function Names(columns: seq<Column>): set<string> {
    set c | c in columns :: c.name
  }

  /** Positional: a pure reorder is another list of columns. */
  predicate SameColumns(a: seq<Column>, b: seq<Column>) {
    |a| == |b| && forall i :: 0 <= i < |a| ==> a[i].name == b[i].name && a[i].typ == b[i].typ
  }

  lemma SameColumnsIsEquality(a: seq<Column>, b: seq<Column>)
    ensures SameColumns(a, b) <==> a == b
  {
    if SameColumns(a, b) {
      forall i | 0 <= i < |a| ensures a[i] == b[i] {}
    }
  }

  /** Every row has exactly these columns. */
  predicate Fits(rows: seq<Row>, names: set<string>) {
    forall r :: r in rows ==> r.Keys == names
  }

  // ---- the predicates the load and the diff share ----

  function At(r: Row, column: string): Value {
    if column in r then r[column] else Null
  }

  /** Every key column equal, as SQL's `=` has it: a null equals nothing. */
  predicate KeyMatch(keys: seq<string>, a: Row, b: Row) {
    forall k :: k in keys ==> At(a, k) != Null && At(a, k) == At(b, k)
  }

  /** The two rows differ outside the key. SQL's `IS DISTINCT FROM`: null is a value like any other. */
  predicate ValuesDiffer(values: seq<string>, a: Row, b: Row) {
    exists c :: c in values && At(a, c) != At(b, c)
  }

  function ValuesOf(columns: seq<Column>, keys: seq<string>): seq<string> {
    if columns == [] then []
    else (if columns[0].name in keys then [] else [columns[0].name]) + ValuesOf(columns[1..], keys)
  }

  lemma ValuesOfIsRest(columns: seq<Column>, keys: seq<string>)
    ensures forall c :: c in ValuesOf(columns, keys) <==> c in Names(columns) && c !in keys
  {
    if columns != [] {
      ValuesOfIsRest(columns[1..], keys);
      assert Names(columns) == {columns[0].name} + Names(columns[1..]);
    }
  }

  /** The key identifies the rows: none is null in it, and no two agree on it. */
  ghost predicate Identifies(keys: seq<string>, bag: multiset<Row>) {
    && (forall r, k :: r in bag && k in keys ==> At(r, k) != Null)
    && (forall a, b :: a in bag && b in bag && KeyMatch(keys, a, b) ==> a == b)
    && (forall r :: r in bag ==> bag[r] == 1)
  }

  // ---- the MERGE pair ----

  predicate HasMatch(r: Row, others: seq<Row>, keys: seq<string>) {
    exists o :: o in others && KeyMatch(keys, r, o)
  }

  /** A row with this row's key; which of several does not matter where the key identifies the rows. */
  function MatchOf(r: Row, others: seq<Row>, keys: seq<string>): (o: Row)
    requires HasMatch(r, others, keys)
    ensures o in others && KeyMatch(keys, r, o)
  {
    if KeyMatch(keys, r, others[0]) then others[0] else MatchOf(r, others[1..], keys)
  }

  function Carried(t: Row, s: Row, values: seq<string>): Row {
    map c | c in t :: if c in values then At(s, c) else t[c]
  }

  /** WHEN MATCHED AND (values differ) THEN UPDATE. */
  function Updated(t: Row, source: seq<Row>, keys: seq<string>, values: seq<string>): Row {
    if HasMatch(t, source, keys) && ValuesDiffer(values, t, MatchOf(t, source, keys))
    then Carried(t, MatchOf(t, source, keys), values)
    else t
  }

  function UpdateAll(table: seq<Row>, source: seq<Row>, keys: seq<string>, values: seq<string>): seq<Row> {
    if table == [] then []
    else [Updated(table[0], source, keys, values)] + UpdateAll(table[1..], source, keys, values)
  }

  function Matched(rows: seq<Row>, others: seq<Row>, keys: seq<string>): seq<Row> {
    if rows == [] then []
    else (if HasMatch(rows[0], others, keys) then [rows[0]] else []) + Matched(rows[1..], others, keys)
  }

  function Unmatched(rows: seq<Row>, others: seq<Row>, keys: seq<string>): seq<Row> {
    if rows == [] then []
    else (if HasMatch(rows[0], others, keys) then [] else [rows[0]]) + Unmatched(rows[1..], others, keys)
  }

  /** Update the matched rows whose values differ, insert the source's unmatched. */
  function Upsert(table: seq<Row>, source: seq<Row>, keys: seq<string>, values: seq<string>): seq<Row> {
    UpdateAll(table, source, keys, values) + Unmatched(source, table, keys)
  }

  /** WHEN NOT MATCHED BY SOURCE THEN DELETE. */
  function RemoveUnmatched(table: seq<Row>, source: seq<Row>, keys: seq<string>): seq<Row> {
    Matched(table, source, keys)
  }

  lemma MatchedCount(rows: seq<Row>, others: seq<Row>, keys: seq<string>, x: Row)
    ensures multiset(Matched(rows, others, keys))[x] == if HasMatch(x, others, keys) then multiset(rows)[x] else 0
    ensures multiset(Unmatched(rows, others, keys))[x] == if HasMatch(x, others, keys) then 0 else multiset(rows)[x]
  {
    if rows != [] {
      assert rows == [rows[0]] + rows[1..];
      MatchedCount(rows[1..], others, keys, x);
    }
  }

  /** Rows of the same columns, equal on the key and on the rest, are the same row. */
  lemma SameRow(a: Row, b: Row, keys: seq<string>, values: seq<string>)
    requires a.Keys == b.Keys && forall c :: c in a ==> c in keys || c in values
    requires KeyMatch(keys, a, b) && !ValuesDiffer(values, a, b)
    ensures a == b
  {
    forall c | c in a ensures a[c] == b[c] {
      if c !in keys { assert !(At(a, c) != At(b, c)); }
    }
  }

  /** The two share their columns, and the key identifies the incoming rows: what `keyFault` has checked. */
  ghost predicate Loadable(table: seq<Row>, source: seq<Row>, names: set<string>, keys: seq<string>, values: seq<string>) {
    && Fits(table, names) && Fits(source, names)
    && (forall c :: c in values <==> c in names && c !in keys)
    && (forall k :: k in keys ==> k in names)
    && Identifies(keys, multiset(source))
  }

  /** How many rows of a table have this row's key. */
  function Sharers(x: Row, table: seq<Row>, keys: seq<string>): nat {
    if table == [] then 0 else (if KeyMatch(keys, table[0], x) then 1 else 0) + Sharers(x, table[1..], keys)
  }

  lemma SharersMatch(x: Row, table: seq<Row>, keys: seq<string>)
    ensures Sharers(x, table, keys) > 0 <==> HasMatch(x, table, keys)
  {
    if table != [] {
      SharersMatch(x, table[1..], keys);
      assert table == [table[0]] + table[1..];
      assert KeyMatch(keys, table[0], x) <==> KeyMatch(keys, x, table[0]);
    }
  }

  lemma {:induction false} IdentifiedShareOne(x: Row, table: seq<Row>, keys: seq<string>)
    requires Identifies(keys, multiset(table))
    ensures Sharers(x, table, keys) <= 1
  {
    if table != [] {
      var t, rest := table[0], table[1..];
      assert table == [t] + rest;
      RestIdentified(keys, t, rest);
      IdentifiedShareOne(x, rest, keys);
      SharersMatch(x, rest, keys);
      forall o | o in rest && KeyMatch(keys, x, o) ensures !KeyMatch(keys, t, x) {
        assert o in multiset(table) && t in multiset(table) && t !in multiset(rest);
        assert KeyMatch(keys, t, x) ==> KeyMatch(keys, t, o);
      }
    }
  }

  /** A row with a match in the source becomes that row, whatever it held. */
  lemma UpdatedIsSource(t: Row, s: Row, source: seq<Row>, names: set<string>, keys: seq<string>, values: seq<string>)
    requires t.Keys == names && Fits(source, names) && (forall c :: c in values <==> c in names && c !in keys)
    requires Identifies(keys, multiset(source)) && s in source && KeyMatch(keys, t, s)
    ensures Updated(t, source, keys, values) == s
  {
    var picked := MatchOf(t, source, keys);
    assert KeyMatch(keys, picked, s);
    assert picked in multiset(source) && s in multiset(source);
    if ValuesDiffer(values, t, s) {
      forall c | c in t ensures Carried(t, s, values)[c] == s[c] {
        if c !in values { assert At(t, c) == At(s, c); }
      }
    } else {
      SameRow(t, s, keys, values);
    }
  }

  /** How often a source row comes out of the updated table: once for every row that shared its key. */
  lemma {:induction false} UpdateCount(table: seq<Row>, source: seq<Row>, names: set<string>, keys: seq<string>, values: seq<string>, x: Row)
    requires Loadable(table, source, names, keys, values) && x in source
    ensures multiset(UpdateAll(table, source, keys, values))[x] == Sharers(x, table, keys)
  {
    if table != [] {
      var t, rest := table[0], table[1..];
      assert table == [t] + rest;
      UpdateCount(rest, source, names, keys, values, x);
      var u := Updated(t, source, keys, values);
      assert UpdateAll(table, source, keys, values) == [u] + UpdateAll(rest, source, keys, values);
      assert u == x <==> KeyMatch(keys, t, x) by {
        if KeyMatch(keys, t, x) {
          UpdatedIsSource(t, x, source, names, keys, values);
        } else {
          UpdatedKeepsKey(t, source, keys, values);
          assert x in multiset(source) && KeyMatch(keys, x, x);
        }
      }
    }
  }

  lemma RestIdentified(keys: seq<string>, t: Row, rest: seq<Row>)
    requires Identifies(keys, multiset([t] + rest))
    ensures Identifies(keys, multiset(rest)) && t !in multiset(rest)
  {
    var bag := multiset([t] + rest);
    assert bag == multiset{t} + multiset(rest);
    forall r | r in multiset(rest) ensures r in bag && multiset(rest)[r] == 1 {
      assert r in bag;
    }
    assert bag[t] == 1;
  }

  lemma UpdatedKeepsKey(t: Row, source: seq<Row>, keys: seq<string>, values: seq<string>)
    ensures Updated(t, source, keys, values).Keys == t.Keys
    ensures (forall c :: c in values ==> c !in keys) ==>
      forall k :: k in keys ==> At(Updated(t, source, keys, values), k) == At(t, k)
  {
  }

  /** Whatever else comes out of the updated table has no match in the source. */
  lemma {:induction false} UpdateElse(table: seq<Row>, source: seq<Row>, names: set<string>, keys: seq<string>, values: seq<string>, x: Row)
    requires Loadable(table, source, names, keys, values)
    requires x in UpdateAll(table, source, keys, values) && HasMatch(x, source, keys)
    ensures x in source
  {
    var t, rest := table[0], table[1..];
    assert table == [t] + rest;
    if x == Updated(t, source, keys, values) {
      var s :| s in source && KeyMatch(keys, x, s);
      UpdatedKeepsKey(t, source, keys, values);
      assert KeyMatch(keys, t, s);
      UpdatedIsSource(t, s, source, names, keys, values);
    } else {
      UpdateElse(rest, source, names, keys, values, x);
    }
  }

  lemma MatchesItself(x: Row, rows: seq<Row>, keys: seq<string>)
    requires x in rows && Identifies(keys, multiset(rows))
    ensures HasMatch(x, rows, keys)
  {
    assert x in multiset(rows) && KeyMatch(keys, x, x);
  }

  function KeyedLoad(table: seq<Row>, source: seq<Row>, keys: seq<string>, values: seq<string>): seq<Row> {
    RemoveUnmatched(Upsert(table, source, keys, values), source, keys)
  }

  /** A keyed load leaves nothing but incoming rows: each once, or as often as rows shared its key. */
  lemma KeyedLoadCounts(table: seq<Row>, source: seq<Row>, names: set<string>, keys: seq<string>, values: seq<string>, x: Row)
    requires Loadable(table, source, names, keys, values)
    ensures multiset(KeyedLoad(table, source, keys, values))[x] ==
      if x in source then Max(1, Sharers(x, table, keys)) else 0
  {
    var updated, inserted := UpdateAll(table, source, keys, values), Unmatched(source, table, keys);
    MatchedCount(updated + inserted, source, keys, x);
    MatchedCount(source, table, keys, x);
    if x in source {
      MatchesItself(x, source, keys);
      UpdateCount(table, source, names, keys, values, x);
      SharersMatch(x, table, keys);
      assert x in multiset(source);
    } else {
      if HasMatch(x, source, keys) && x in updated {
        UpdateElse(table, source, names, keys, values, x);
      }
      assert x !in inserted by { assert multiset(inserted)[x] == 0; }
    }
  }

  /**
   * Exactly when the keyed load is right: the two MERGE statements leave the incoming rows
   * if and only if no two rows of the table share the key of one of them.
   */
  lemma KeyedLoadExact(table: seq<Row>, source: seq<Row>, names: set<string>, keys: seq<string>, values: seq<string>)
    requires Loadable(table, source, names, keys, values)
    ensures multiset(KeyedLoad(table, source, keys, values)) == multiset(source)
      <==> forall x :: x in source ==> Sharers(x, table, keys) <= 1
  {
    forall x ensures multiset(KeyedLoad(table, source, keys, values))[x]
      == if x in source then Max(1, Sharers(x, table, keys)) else 0
    {
      KeyedLoadCounts(table, source, names, keys, values, x);
    }
    forall x | x in source ensures multiset(source)[x] == 1 {
      assert x in multiset(source);
    }
    var loaded := multiset(KeyedLoad(table, source, keys, values));
    if loaded == multiset(source) {
      forall x | x in source ensures Sharers(x, table, keys) <= 1 {
        assert loaded[x] == multiset(source)[x];
      }
    } else {
      var x :| loaded[x] != multiset(source)[x];
    }
  }

  /**
   * When the key identifies the table's rows too, which is what asking for a key both ends
   * share is for, the keyed load is the fast form of emptying the table and inserting.
   */
  lemma KeyedLoadReplaces(table: seq<Row>, source: seq<Row>, names: set<string>, keys: seq<string>, values: seq<string>)
    requires Loadable(table, source, names, keys, values) && Identifies(keys, multiset(table))
    ensures multiset(KeyedLoad(table, source, keys, values)) == multiset(source)
  {
    KeyedLoadExact(table, source, names, keys, values);
    forall x | x in source ensures Sharers(x, table, keys) <= 1 {
      IdentifiedShareOne(x, table, keys);
    }
  }

  // ---- what stops a key ----

  datatype KeyFault = KeyMissing | KeyNull | KeyNotUnique

  function KeyOf(r: Row, keys: seq<string>): seq<Value> {
    seq(|keys|, i requires 0 <= i < |keys| => At(r, keys[i]))
  }

  predicate NullInKey(r: Row, keys: seq<string>) {
    exists k :: k in keys && At(r, k) == Null
  }

  function CountNulls(rows: seq<Row>, keys: seq<string>): nat {
    if rows == [] then 0 else (if NullInKey(rows[0], keys) then 1 else 0) + CountNulls(rows[1..], keys)
  }

  function DistinctKeys(rows: seq<Row>, keys: seq<string>): set<seq<Value>> {
    set r | r in rows :: KeyOf(r, keys)
  }

  /** Asked of the content in this order: the later answers mean nothing once an earlier one is no. */
  function FaultOf(columns: seq<Column>, rows: seq<Row>, keys: seq<string>): Option<KeyFault> {
    if exists k :: k in keys && k !in Names(columns) then Some(KeyMissing)
    else if CountNulls(rows, keys) > 0 then Some(KeyNull)
    else if |DistinctKeys(rows, keys)| == |rows| then None
    else Some(KeyNotUnique)
  }

  lemma NoNulls(rows: seq<Row>, keys: seq<string>)
    ensures CountNulls(rows, keys) == 0 <==> forall r :: r in rows ==> !NullInKey(r, keys)
  {
    if rows != [] {
      NoNulls(rows[1..], keys);
      assert rows == [rows[0]] + rows[1..];
    }
  }

  lemma SameKey(a: Row, b: Row, keys: seq<string>)
    requires !NullInKey(a, keys)
    ensures KeyMatch(keys, a, b) <==> KeyOf(a, keys) == KeyOf(b, keys)
  {
    if KeyOf(a, keys) == KeyOf(b, keys) {
      forall k | k in keys ensures At(a, k) != Null && At(a, k) == At(b, k) {
        var i :| 0 <= i < |keys| && keys[i] == k;
        assert KeyOf(a, keys)[i] == KeyOf(b, keys)[i];
      }
    }
  }

  /** As many distinct keys as rows means no two rows share one, and no row is there twice. */
  lemma {:induction false} DistinctCounted(rows: seq<Row>, keys: seq<string>)
    requires forall r :: r in rows ==> !NullInKey(r, keys)
    ensures |DistinctKeys(rows, keys)| <= |rows|
    ensures |DistinctKeys(rows, keys)| == |rows| <==> Identifies(keys, multiset(rows))
  {
    if rows == [] {
      assert DistinctKeys(rows, keys) == {};
    } else {
      var t, rest := rows[0], rows[1..];
      assert rows == [t] + rest;
      DistinctCounted(rest, keys);
      assert DistinctKeys(rows, keys) == {KeyOf(t, keys)} + DistinctKeys(rest, keys);
      if KeyOf(t, keys) in DistinctKeys(rest, keys) {
        assert DistinctKeys(rows, keys) == DistinctKeys(rest, keys);
        var o :| o in rest && KeyOf(o, keys) == KeyOf(t, keys);
        SameKey(t, o, keys);
        TwoAgree(keys, t, o, rest);
      } else {
        assert |DistinctKeys(rows, keys)| == 1 + |DistinctKeys(rest, keys)|;
        if Identifies(keys, multiset(rest)) {
          FirstIdentified(keys, t, rest);
        } else if Identifies(keys, multiset(rows)) {
          RestIdentified(keys, t, rest);
        }
      }
    }
  }

  lemma TwoAgree(keys: seq<string>, t: Row, o: Row, rest: seq<Row>)
    requires o in rest && KeyMatch(keys, t, o)
    ensures !Identifies(keys, multiset([t] + rest))
  {
    var bag := multiset([t] + rest);
    assert bag == multiset{t} + multiset(rest);
    assert t in bag && o in bag && (t == o ==> bag[t] >= 2);
  }

  lemma FirstIdentified(keys: seq<string>, t: Row, rest: seq<Row>)
    requires !NullInKey(t, keys) && (forall r :: r in rest ==> !NullInKey(r, keys))
    requires KeyOf(t, keys) !in DistinctKeys(rest, keys) && Identifies(keys, multiset(rest))
    ensures Identifies(keys, multiset([t] + rest))
  {
    var bag := multiset([t] + rest);
    assert bag == multiset{t} + multiset(rest);
    forall a, b | a in bag && b in bag && KeyMatch(keys, a, b) ensures a == b {
      SameKey(a, b, keys);
      assert a in rest ==> KeyOf(a, keys) in DistinctKeys(rest, keys);
      assert b in rest ==> KeyOf(b, keys) in DistinctKeys(rest, keys);
      if a in rest && b in rest { assert a in multiset(rest) && b in multiset(rest); }
    }
    assert t in rest ==> KeyOf(t, keys) in DistinctKeys(rest, keys);
    forall r | r in bag ensures bag[r] == 1 {
      if r != t { assert r in multiset(rest); }
    }
  }

  /** A version has no key fault exactly when its key is there and identifies its rows. */
  lemma FaultFree(columns: seq<Column>, rows: seq<Row>, keys: seq<string>)
    ensures FaultOf(columns, rows, keys) == None <==>
      (forall k :: k in keys ==> k in Names(columns)) && Identifies(keys, multiset(rows))
  {
    NoNulls(rows, keys);
    if forall r :: r in rows ==> !NullInKey(r, keys) {
      DistinctCounted(rows, keys);
    } else {
      var r :| r in rows && NullInKey(r, keys);
      assert r in multiset(rows);
    }
  }

  /** Which fault is told: a key column that is not there before a null in the key, and that before two rows with one key. */
  lemma FaultTells(columns: seq<Column>, rows: seq<Row>, keys: seq<string>)
    ensures FaultOf(columns, rows, keys) == Some(KeyMissing) <==> exists k :: k in keys && k !in Names(columns)
    ensures FaultOf(columns, rows, keys) == Some(KeyNull) <==>
      (forall k :: k in keys ==> k in Names(columns)) && exists r, k :: r in rows && k in keys && At(r, k) == Null
    ensures FaultOf(columns, rows, keys) == Some(KeyNotUnique) <==>
      && (forall k :: k in keys ==> k in Names(columns)) && (forall r, k :: r in rows && k in keys ==> At(r, k) != Null)
      && exists i, j :: 0 <= i < j < |rows| && KeyMatch(keys, rows[i], rows[j])
  {
    NoNulls(rows, keys);
    if forall r :: r in rows ==> !NullInKey(r, keys) {
      DistinctCounted(rows, keys);
      TwoShare(rows, keys);
    }
  }

  /** Where no key has a null, the rows are not identified exactly when two of them have one key. */
  lemma {:induction false} TwoShare(rows: seq<Row>, keys: seq<string>)
    requires forall r :: r in rows ==> !NullInKey(r, keys)
    ensures !Identifies(keys, multiset(rows)) <==> exists i, j :: 0 <= i < j < |rows| && KeyMatch(keys, rows[i], rows[j])
  {
    if rows != [] {
      var t, rest := rows[0], rows[1..];
      assert rows == [t] + rest;
      TwoShare(rest, keys);
      if o :| o in rest && KeyMatch(keys, t, o) {
        TwoAgree(keys, t, o, rest);
        var j :| 0 <= j < |rest| && rest[j] == o;
        assert KeyMatch(keys, rows[0], rows[j + 1]);
      } else {
        forall o | o in rest ensures KeyOf(o, keys) != KeyOf(t, keys) { SameKey(t, o, keys); }
        if Identifies(keys, multiset(rest)) {
          FirstIdentified(keys, t, rest);
          forall i, j | 0 <= i < j < |rows| ensures !KeyMatch(keys, rows[i], rows[j]) {
            if i > 0 { assert !KeyMatch(keys, rest[i - 1], rest[j - 1]); } else { assert rows[j] in rest; }
          }
        } else {
          var i, j :| 0 <= i < j < |rest| && KeyMatch(keys, rest[i], rest[j]);
          assert KeyMatch(keys, rows[i + 1], rows[j + 1]);
          if Identifies(keys, multiset(rows)) { RestIdentified(keys, t, rest); }
        }
      }
    }
  }
}
