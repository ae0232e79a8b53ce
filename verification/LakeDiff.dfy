/**
 * What the two diff queries answer, and how the keyless diff, the keyed diff and the keyed
 * load agree on the same change.
 */
module LakeDiff {
  import opened Basics
  import opened LakeTables

  const SAMPLE_LIMIT: nat := 5

  // ---- without a key: whole rows, counted individually ----

  /** A row of the two snapshots stacked, the newer's marked +1 and the older's -1. */
  datatype Signed = Signed(row: Row, mark: int)

  function Marked(rows: seq<Row>, mark: int): seq<Signed> {
    if rows == [] then [] else [Signed(rows[0], mark)] + Marked(rows[1..], mark)
  }

  /** UNION ALL of the two sides. */
  function Stacked(from: seq<Row>, to: seq<Row>): seq<Signed> {
    Marked(to, 1) + Marked(from, -1)
  }

  /** The sum of the marks of one group: the rows that are this row. */
  function SumOf(stacked: seq<Signed>, r: Row): int {
    if stacked == [] then 0 else (if stacked[0].row == r then stacked[0].mark else 0) + SumOf(stacked[1..], r)
  }

  /** GROUP BY every column, HAVING a sum that is not zero. */
  function Grouped(stacked: seq<Signed>): map<Row, int> {
    map x | x in stacked && SumOf(stacked, x.row) != 0 :: x.row := SumOf(stacked, x.row)
  }

  lemma {:induction false} SumOfMarked(rows: seq<Row>, mark: int, rest: seq<Signed>, r: Row)
    ensures SumOf(Marked(rows, mark) + rest, r) == mark * multiset(rows)[r] + SumOf(rest, r)
  {
    if rows == [] {
      assert Marked(rows, mark) + rest == rest;
    } else {
      assert rows == [rows[0]] + rows[1..];
      assert (Marked(rows, mark) + rest)[1..] == Marked(rows[1..], mark) + rest;
      SumOfMarked(rows[1..], mark, rest, r);
      var n: int := multiset(rows[1..])[r];
      assert mark * (n + 1) == mark * n + mark;
    }
  }

  /** A distinct row's group sums to the copies the newer version has more, or fewer if negative. */
  function Net(from: seq<Row>, to: seq<Row>, r: Row): (n: int)
    ensures multiset(from)[r] + n == multiset(to)[r]
  {
    SumOfMarked(to, 1, Marked(from, -1), r);
    SumOfMarked(from, -1, [], r);
    assert Marked(from, -1) + [] == Marked(from, -1);
    SumOf(Stacked(from, to), r)
  }

  lemma {:induction false} InMarked(rows: seq<Row>, mark: int, x: Signed)
    ensures x in Marked(rows, mark) <==> x.mark == mark && x.row in rows
  {
    if rows != [] {
      assert rows == [rows[0]] + rows[1..];
      InMarked(rows[1..], mark, x);
    }
  }

  /** The groups are the rows that one version holds more often than the other, each with its net. */
  lemma GroupsAreNets(from: seq<Row>, to: seq<Row>, r: Row)
    ensures var groups := Grouped(Stacked(from, to));
      && (r in groups <==> multiset(to)[r] != multiset(from)[r])
      && (r in groups ==> groups[r] == Net(from, to, r))
  {
    var stacked := Stacked(from, to);
    assert Net(from, to, r) == SumOf(stacked, r);
    InMarked(to, 1, Signed(r, 1));
    InMarked(from, -1, Signed(r, -1));
    if multiset(to)[r] != multiset(from)[r] {
      assert r in to ==> Signed(r, 1) in stacked;
      assert r in from ==> Signed(r, -1) in stacked;
    }
  }

  /** The groups kept on one side: those whose net is positive, or not. */
  function Moved(from: seq<Row>, to: seq<Row>, added: bool): set<Row> {
    var groups := Grouped(Stacked(from, to));
    set r | r in groups && (groups[r] > 0) == added
  }

  lemma MovedByNet(from: seq<Row>, to: seq<Row>, added: bool, r: Row)
    ensures r in Moved(from, to, added) <==> if added then Net(from, to, r) > 0 else Net(from, to, r) < 0
  {
    GroupsAreNets(from, to, r);
  }

  /** A bag after every group's net has been added to it. */
  ghost function Applied(bag: multiset<Row>, groups: map<Row, int>): multiset<Row>
    decreases |groups|
  {
    if groups == map[] then bag
    else
      var r :| r in groups;
      Applied(bag[r := Max(0, bag[r] + groups[r])], groups - {r})
  }

  lemma {:induction false} AppliedAt(bag: multiset<Row>, groups: map<Row, int>, x: Row)
    ensures Applied(bag, groups)[x] == if x in groups then Max(0, bag[x] + groups[x]) else bag[x]
    decreases |groups|
  {
    if groups != map[] {
      var r :| r in groups && Applied(bag, groups) == Applied(bag[r := Max(0, bag[r] + groups[r])], groups - {r});
      AppliedAt(bag[r := Max(0, bag[r] + groups[r])], groups - {r}, x);
    }
  }

  function Abs(n: int): nat { if n < 0 then -n else n }

  ghost function SumAbs(from: seq<Row>, to: seq<Row>, rows: set<Row>): nat {
    if rows == {} then 0
    else
      var r :| r in rows;
      Abs(Net(from, to, r)) + SumAbs(from, to, rows - {r})
  }

  /** The window sum of one side: the copies gained, or lost. */
  ghost function SideTotal(from: seq<Row>, to: seq<Row>, added: bool): nat {
    SumAbs(from, to, Moved(from, to, added))
  }

  lemma {:induction false} SumIsSize(from: seq<Row>, to: seq<Row>, rows: set<Row>, bag: multiset<Row>)
    requires forall r :: r in rows ==> bag[r] == Abs(Net(from, to, r))
    requires forall r :: r in bag ==> r in rows
    ensures SumAbs(from, to, rows) == |bag|
    decreases |rows|
  {
    if rows == {} {
      assert bag == multiset{};
    } else {
      var r :| r in rows && SumAbs(from, to, rows) == Abs(Net(from, to, r)) + SumAbs(from, to, rows - {r});
      SumIsSize(from, to, rows - {r}, bag[r := 0]);
      assert bag == bag[r := 0] + multiset{}[r := bag[r]];
    }
  }

  /** The totals are the sizes of the multiset differences, both ways, with duplicates counted. */
  lemma TotalsAreDifferences(from: seq<Row>, to: seq<Row>)
    ensures SideTotal(from, to, true) == |multiset(to) - multiset(from)|
    ensures SideTotal(from, to, false) == |multiset(from) - multiset(to)|
  {
    var gained, lost := multiset(to) - multiset(from), multiset(from) - multiset(to);
    forall r, added
      ensures r in Moved(from, to, added) <==> if added then Net(from, to, r) > 0 else Net(from, to, r) < 0
    {
      MovedByNet(from, to, added, r);
    }
    hide Moved;
    forall r | r in gained ensures r in Moved(from, to, true) { assert gained[r] > 0 && Net(from, to, r) > 0; }
    forall r | r in lost ensures r in Moved(from, to, false) { assert lost[r] > 0 && Net(from, to, r) < 0; }
    SumIsSize(from, to, Moved(from, to, true), gained);
    SumIsSize(from, to, Moved(from, to, false), lost);
  }

  lemma GroupsApply(from: seq<Row>, to: seq<Row>)
    ensures Applied(multiset(from), Grouped(Stacked(from, to))) == multiset(to)
  {
    var groups := Grouped(Stacked(from, to));
    forall x ensures Applied(multiset(from), groups)[x] == multiset(to)[x] {
      AppliedAt(multiset(from), groups, x);
      GroupsAreNets(from, to, x);
    }
  }

  /**
   * The keyless diff is conservative: the groups, each with its net, turn the older version's
   * rows into the newer's, swapping the ends swaps the counts, the counts differ by as much as
   * the versions do, and both are zero exactly between equal versions.
   */
  lemma KeylessDiffConserves(from: seq<Row>, to: seq<Row>)
    ensures Applied(multiset(from), Grouped(Stacked(from, to))) == multiset(to)
    ensures SideTotal(from, to, true) == SideTotal(to, from, false)
    ensures SideTotal(from, to, true) - SideTotal(from, to, false) == |to| - |from|
    ensures SideTotal(from, to, true) == 0 && SideTotal(from, to, false) == 0 <==> multiset(from) == multiset(to)
  {
    TotalsAreDifferences(from, to);
    TotalsAreDifferences(to, from);
    GroupsApply(from, to);
    hide Applied, Grouped, Stacked, SideTotal;
    var a, b := multiset(from), multiset(to);
    Balance(a, b);
    if |b - a| == 0 && |a - b| == 0 {
      assert b - a == multiset{} && a - b == multiset{};
      forall r ensures a[r] == b[r] {
        assert (a - b)[r] == 0 && (b - a)[r] == 0;
      }
    }
  }

  // ---- with a key: a full outer join ----

  /** One row of the join: the older side, the newer side, or both. */
  datatype Pair = Pair(before: Option<Row>, after: Option<Row>)

  datatype Kind = Added | Removed | Changed

  /** `side`.key IS NULL, which the query takes to mean that the side has no row. */
  predicate Absent(side: Option<Row>, keys: seq<string>)
    requires keys != []
  {
    side.None? || At(side.value, keys[0]) == Null
  }

  function KindOf(p: Pair, keys: seq<string>): Kind
    requires keys != []
  {
    if Absent(p.before, keys) then Added else if Absent(p.after, keys) then Removed else Changed
  }

  /** The WHERE clause: the rows that did something. */
  predicate Acted(p: Pair, keys: seq<string>, values: seq<string>)
    requires keys != []
  {
    || Absent(p.before, keys) || Absent(p.after, keys)
    || ValuesDiffer(values, p.before.value, p.after.value)
  }

  function JoinOne(t: Row, from: seq<Row>, keys: seq<string>): seq<Pair> {
    if from == [] then []
    else (if KeyMatch(keys, from[0], t) then [Pair(Some(from[0]), Some(t))] else []) + JoinOne(t, from[1..], keys)
  }

  function JoinNewer(from: seq<Row>, to: seq<Row>, keys: seq<string>): seq<Pair> {
    if to == [] then []
    else
      (if HasMatch(to[0], from, keys) then JoinOne(to[0], from, keys) else [Pair(None, Some(to[0]))])
      + JoinNewer(from, to[1..], keys)
  }

  function JoinOlder(from: seq<Row>, to: seq<Row>, keys: seq<string>): seq<Pair> {
    if from == [] then []
    else (if HasMatch(from[0], to, keys) then [] else [Pair(Some(from[0]), None)]) + JoinOlder(from[1..], to, keys)
  }

  /** FULL OUTER JOIN on the key. */
  function Join(from: seq<Row>, to: seq<Row>, keys: seq<string>): seq<Pair> {
    JoinNewer(from, to, keys) + JoinOlder(from, to, keys)
  }

  function CountKind(pairs: seq<Pair>, kind: Kind, keys: seq<string>, values: seq<string>): nat
    requires keys != []
  {
    if pairs == [] then 0
    else (if Acted(pairs[0], keys, values) && KindOf(pairs[0], keys) == kind then 1 else 0)
         + CountKind(pairs[1..], kind, keys, values)
  }

  lemma {:induction false} CountConcat(a: seq<Pair>, b: seq<Pair>, kind: Kind, keys: seq<string>, values: seq<string>)
    requires keys != []
    ensures CountKind(a + b, kind, keys, values) == CountKind(a, kind, keys, values) + CountKind(b, kind, keys, values)
  {
    if a == [] {
      assert a + b == b;
    } else {
      assert (a + b)[1..] == a[1..] + b;
      CountConcat(a[1..], b, kind, keys, values);
    }
  }

  /** How many rows of a kind the keyed query counts. */
  function KeyedTotal(from: seq<Row>, to: seq<Row>, kind: Kind, keys: seq<string>, values: seq<string>): nat
    requires keys != []
  {
    CountKind(Join(from, to, keys), kind, keys, values)
  }

  /** The rows the keyed load would update: matched, with a value that differs. */
  function ToUpdate(table: seq<Row>, source: seq<Row>, keys: seq<string>, values: seq<string>): seq<Row> {
    if table == [] then []
    else
      (if HasMatch(table[0], source, keys) && ValuesDiffer(values, table[0], MatchOf(table[0], source, keys))
       then [table[0]] else [])
      + ToUpdate(table[1..], source, keys, values)
  }

  // The newer side of the join, with `from` identified by the key: one pair for each row.

  lemma OnlyMatch(t: Row, f: Row, rest: seq<Row>, keys: seq<string>)
    requires Identifies(keys, multiset([f] + rest)) && KeyMatch(keys, t, f)
    ensures !HasMatch(t, rest, keys)
  {
    RestIdentified(keys, f, rest);
    forall o | o in rest ensures !KeyMatch(keys, t, o) {
      assert o in multiset([f] + rest) && f in multiset([f] + rest) && f !in multiset(rest) && o in multiset(rest);
      assert KeyMatch(keys, t, o) ==> KeyMatch(keys, f, o);
    }
  }

  lemma {:induction false} NoneJoined(t: Row, from: seq<Row>, keys: seq<string>)
    requires !HasMatch(t, from, keys)
    ensures JoinOne(t, from, keys) == []
  {
    if from != [] {
      assert from == [from[0]] + from[1..];
      assert KeyMatch(keys, from[0], t) <==> KeyMatch(keys, t, from[0]);
      NoneJoined(t, from[1..], keys);
    }
  }

  lemma {:induction false} JoinOneRow(t: Row, from: seq<Row>, keys: seq<string>)
    requires Identifies(keys, multiset(from)) && HasMatch(t, from, keys)
    ensures JoinOne(t, from, keys) == [Pair(Some(MatchOf(t, from, keys)), Some(t))]
  {
    var f, rest := from[0], from[1..];
    assert from == [f] + rest;
    assert KeyMatch(keys, f, t) <==> KeyMatch(keys, t, f);
    if KeyMatch(keys, t, f) {
      OnlyMatch(t, f, rest, keys);
      NoneJoined(t, rest, keys);
    } else {
      RestIdentified(keys, f, rest);
      hide Identifies, KeyMatch;
      assert HasMatch(t, rest, keys);
      JoinOneRow(t, rest, keys);
    }
  }

  /** What a row of the newer version did, told by the older version's rows. */
  function DidOf(t: Row, from: seq<Row>, keys: seq<string>, values: seq<string>): Option<Kind> {
    if !HasMatch(t, from, keys) then Some(Added)
    else if ValuesDiffer(values, MatchOf(t, from, keys), t) then Some(Changed)
    else None
  }

  function CountDid(to: seq<Row>, from: seq<Row>, kind: Kind, keys: seq<string>, values: seq<string>): nat {
    if to == [] then 0
    else (if DidOf(to[0], from, keys, values) == Some(kind) then 1 else 0) + CountDid(to[1..], from, kind, keys, values)
  }

  ghost predicate NonNullKeys(rows: seq<Row>, keys: seq<string>) {
    forall r, k :: r in rows && k in keys ==> At(r, k) != Null
  }

  /** What the join shows of one newer row, counted. */
  lemma HeadCounts(t: Row, from: seq<Row>, keys: seq<string>, values: seq<string>, kind: Kind)
    requires keys != [] && Identifies(keys, multiset(from)) && At(t, keys[0]) != Null
    ensures CountKind(HeadOf(t, from, keys), kind, keys, values) == if DidOf(t, from, keys, values) == Some(kind) then 1 else 0
  {
    var head := HeadOf(t, from, keys);
    if HasMatch(t, from, keys) {
      JoinOneRow(t, from, keys);
      assert MatchOf(t, from, keys) in multiset(from);
      assert At(MatchOf(t, from, keys), keys[0]) != Null;
    }
    hide Identifies, KeyMatch, HasMatch, MatchOf, ValuesDiffer, JoinOne;
    assert |head| == 1 && head[1..] == [] && CountKind([], kind, keys, values) == 0;
  }

  function HeadOf(t: Row, from: seq<Row>, keys: seq<string>): seq<Pair> {
    if HasMatch(t, from, keys) then JoinOne(t, from, keys) else [Pair(None, Some(t))]
  }

  lemma {:induction false} JoinNewerCount(from: seq<Row>, to: seq<Row>, keys: seq<string>, values: seq<string>, kind: Kind)
    requires keys != [] && Identifies(keys, multiset(from)) && NonNullKeys(to, keys)
    ensures CountKind(JoinNewer(from, to, keys), kind, keys, values) == CountDid(to, from, kind, keys, values)
  {
    if to != [] {
      JoinNewerCount(from, to[1..], keys, values, kind);
      HeadCounts(to[0], from, keys, values, kind);
      CountConcat(HeadOf(to[0], from, keys), JoinNewer(from, to[1..], keys), kind, keys, values);
      hide CountKind, Identifies, DidOf, JoinOne, HasMatch;
      assert JoinNewer(from, to, keys) == HeadOf(to[0], from, keys) + JoinNewer(from, to[1..], keys);
    }
  }

  lemma {:induction false} JoinOlderCount(from: seq<Row>, to: seq<Row>, keys: seq<string>, values: seq<string>, kind: Kind)
    requires keys != [] && NonNullKeys(from, keys)
    ensures CountKind(JoinOlder(from, to, keys), kind, keys, values)
      == if kind == Removed then |Unmatched(from, to, keys)| else 0
  {
    if from != [] {
      var f := from[0];
      var head := if HasMatch(f, to, keys) then [] else [Pair(Some(f), None)];
      JoinOlderCount(from[1..], to, keys, values, kind);
      CountConcat(head, JoinOlder(from[1..], to, keys), kind, keys, values);
      assert At(f, keys[0]) != Null;
      if head != [] { assert |head| == 1 && head[1..] == []; }
    }
  }

  // ---- the three agree ----

  lemma {:induction false} DidAdd(to: seq<Row>, from: seq<Row>, keys: seq<string>, values: seq<string>)
    ensures CountDid(to, from, Added, keys, values) == |Unmatched(to, from, keys)|
    ensures CountDid(to, from, Removed, keys, values) == 0
  {
    if to != [] { DidAdd(to[1..], from, keys, values); }
  }

  /** Rows of `rows` that do not stand as they are in `others`. */
  function NotIn(rows: seq<Row>, others: seq<Row>): seq<Row> {
    if rows == [] then [] else (if rows[0] in others then [] else [rows[0]]) + NotIn(rows[1..], others)
  }

  lemma {:induction false} NotInIsDifference(rows: seq<Row>, others: seq<Row>)
    requires forall r :: r in rows ==> multiset(rows)[r] == 1
    ensures multiset(NotIn(rows, others)) == multiset(rows) - multiset(others)
    ensures |NotIn(rows, others)| == |multiset(rows) - multiset(others)|
  {
    forall x ensures multiset(NotIn(rows, others))[x] == (multiset(rows) - multiset(others))[x] {
      NotInCount(rows, others, x);
    }
    assert multiset(NotIn(rows, others)) == multiset(rows) - multiset(others);
  }

  lemma {:induction false} NotInCount(rows: seq<Row>, others: seq<Row>, x: Row)
    ensures multiset(NotIn(rows, others))[x] == if x in others then 0 else multiset(rows)[x]
  {
    if rows != [] {
      assert rows == [rows[0]] + rows[1..];
      NotInCount(rows[1..], others, x);
    }
  }

  ghost predicate Comparable(from: seq<Row>, to: seq<Row>, names: set<string>, keys: seq<string>, values: seq<string>) {
    keys != [] && Loadable(from, to, names, keys, values) && Identifies(keys, multiset(from))
  }

  /** A row of one version stands in the other exactly when its match there differs in nothing. */
  lemma StandsIff(t: Row, to: seq<Row>, from: seq<Row>, names: set<string>, keys: seq<string>, values: seq<string>)
    requires Comparable(from, to, names, keys, values) && t in to
    ensures t in from <==> HasMatch(t, from, keys) && !ValuesDiffer(values, MatchOf(t, from, keys), t)
  {
    assert t in multiset(to) && KeyMatch(keys, t, t);
    if t in from {
      var f := MatchOf(t, from, keys);
      assert f in multiset(from) && t in multiset(from);
      assert KeyMatch(keys, f, t);
    } else if HasMatch(t, from, keys) && !ValuesDiffer(values, MatchOf(t, from, keys), t) {
      SameRow(MatchOf(t, from, keys), t, keys, values);
    }
  }

  lemma {:induction false} NotInSplits(rows: seq<Row>, to: seq<Row>, from: seq<Row>, names: set<string>, keys: seq<string>, values: seq<string>)
    requires Comparable(from, to, names, keys, values) && forall r :: r in rows ==> r in to
    ensures |NotIn(rows, from)| == CountDid(rows, from, Added, keys, values) + CountDid(rows, from, Changed, keys, values)
  {
    if rows != [] {
      StandsIff(rows[0], to, from, names, keys, values);
      NotInSplits(rows[1..], to, from, names, keys, values);
    }
  }

  /** As many rows changed, told from the older side as from the newer. */
  lemma ChangedBothWays(from: seq<Row>, to: seq<Row>, names: set<string>, keys: seq<string>, values: seq<string>)
    requires Comparable(from, to, names, keys, values)
    ensures CountDid(from, to, Changed, keys, values) == CountDid(to, from, Changed, keys, values)
    ensures |ToUpdate(from, to, keys, values)| == CountDid(to, from, Changed, keys, values)
  {
    forall r | r in from ensures multiset(from)[r] == 1 { assert r in multiset(from); }
    forall r | r in to ensures multiset(to)[r] == 1 { assert r in multiset(to); }
    Balance(multiset(from), multiset(to));
    ChangedCounted(from, to, keys, values);
    hide Identifies, KeyMatch, Fits, CountDid, ToUpdate;
    NotInIsDifference(from, to);
    NotInIsDifference(to, from);
    NotInSplits(to, to, from, names, keys, values);
    NotInSplits(from, from, to, names, keys, values);
    DidAdd(from, to, keys, values);
    DidAdd(to, from, keys, values);
    MatchedBothWays(from, to, keys);
    MatchedRest(from, to, keys);
    MatchedRest(to, from, keys);
  }

  lemma Balance(a: multiset<Row>, b: multiset<Row>)
    ensures |b - a| - |a - b| == |b| - |a|
  {
    assert a == (a - b) + (a * b) && b == (b - a) + (a * b);
    assert |a| == |a - b| + |a * b| && |b| == |b - a| + |a * b|;
  }

  lemma {:induction false} ChangedCounted(from: seq<Row>, to: seq<Row>, keys: seq<string>, values: seq<string>)
    ensures |ToUpdate(from, to, keys, values)| == CountDid(from, to, Changed, keys, values)
  {
    if from != [] {
      ChangedCounted(from[1..], to, keys, values);
      if HasMatch(from[0], to, keys) {
        var t := MatchOf(from[0], to, keys);
        assert ValuesDiffer(values, from[0], t) <==> ValuesDiffer(values, t, from[0]);
      }
    }
  }

  lemma {:induction false} MatchedRest(a: seq<Row>, b: seq<Row>, keys: seq<string>)
    ensures |Matched(a, b, keys)| + |Unmatched(a, b, keys)| == |a|
  {
    if a != [] { MatchedRest(a[1..], b, keys); }
  }

  /** Under a key that identifies both, as many rows of one match as of the other. */
  lemma {:induction false} MatchedBothWays(a: seq<Row>, b: seq<Row>, keys: seq<string>)
    requires Identifies(keys, multiset(a)) && Identifies(keys, multiset(b))
    ensures |Matched(a, b, keys)| == |Matched(b, a, keys)|
  {
    if a == [] {
      NoneMatched(b, keys);
    } else {
      var x, rest := a[0], a[1..];
      assert a == [x] + rest;
      RestIdentified(keys, x, rest);
      MatchedBothWays(rest, b, keys);
      MatchedGains(b, x, rest, keys);
    }
  }

  lemma {:induction false} NoneMatched(b: seq<Row>, keys: seq<string>)
    ensures Matched(b, [], keys) == []
  {
    if b != [] { NoneMatched(b[1..], keys); }
  }

  lemma HasMatchOneMore(y: Row, x: Row, rest: seq<Row>, keys: seq<string>)
    ensures HasMatch(y, [x] + rest, keys) <==> KeyMatch(keys, y, x) || HasMatch(y, rest, keys)
  {
    assert x in [x] + rest;
    hide KeyMatch;
  }

  lemma {:induction false} MatchedGains(b: seq<Row>, x: Row, rest: seq<Row>, keys: seq<string>)
    requires Identifies(keys, multiset([x] + rest)) && Identifies(keys, multiset(b))
    ensures |Matched(b, [x] + rest, keys)| == |Matched(b, rest, keys)| + if HasMatch(x, b, keys) then 1 else 0
  {
    if b != [] {
      var y, tail := b[0], b[1..];
      assert b == [y] + tail;
      RestIdentified(keys, y, tail);
      MatchedGains(tail, x, rest, keys);
      assert KeyMatch(keys, x, y) <==> KeyMatch(keys, y, x);
      HasMatchOneMore(y, x, rest, keys);
      HasMatchOneMore(x, y, tail, keys);
      hide KeyMatch, HasMatch, Identifies;
      if KeyMatch(keys, x, y) {
        OnlyMatch(x, y, tail, keys);
        OnlyMatch(y, x, rest, keys);
      }
    }
  }

  // ---- the second statement ----

  lemma {:induction false} UnmatchedConcat(a: seq<Row>, b: seq<Row>, others: seq<Row>, keys: seq<string>)
    ensures Unmatched(a + b, others, keys) == Unmatched(a, others, keys) + Unmatched(b, others, keys)
  {
    if a == [] {
      assert a + b == b;
    } else {
      assert (a + b)[1..] == a[1..] + b;
      UnmatchedConcat(a[1..], b, others, keys);
    }
  }

  lemma {:induction false} NoneUnmatched(rows: seq<Row>, others: seq<Row>, keys: seq<string>)
    requires forall r :: r in rows ==> HasMatch(r, others, keys)
    ensures Unmatched(rows, others, keys) == []
  {
    if rows != [] { NoneUnmatched(rows[1..], others, keys); }
  }

  lemma {:induction false} UpdatingKeepsUnmatched(table: seq<Row>, source: seq<Row>, keys: seq<string>, values: seq<string>)
    requires forall c :: c in values ==> c !in keys
    ensures Unmatched(UpdateAll(table, source, keys, values), source, keys) == Unmatched(table, source, keys)
  {
    if table != [] {
      var t, u := table[0], Updated(table[0], source, keys, values);
      UpdatedKeepsKey(t, source, keys, values);
      assert forall o :: KeyMatch(keys, u, o) <==> KeyMatch(keys, t, o);
      assert HasMatch(t, source, keys) <==> HasMatch(u, source, keys);
      assert !HasMatch(t, source, keys) ==> u == t;
      hide Updated, HasMatch;
      UpdatingKeepsUnmatched(table[1..], source, keys, values);
      assert UpdateAll(table, source, keys, values) == [u] + UpdateAll(table[1..], source, keys, values);
    }
  }

  lemma DeletesUnmatched(table: seq<Row>, source: seq<Row>, keys: seq<string>)
    ensures multiset(RemoveUnmatched(table, source, keys)) + multiset(Unmatched(table, source, keys)) == multiset(table)
  {
    forall x ensures multiset(Matched(table, source, keys))[x] + multiset(Unmatched(table, source, keys))[x] == multiset(table)[x] {
      MatchedCount(table, source, keys, x);
    }
  }

  /** What the second statement deletes from the table the first has written is what was unmatched before either. */
  lemma SecondDeletes(table: seq<Row>, source: seq<Row>, keys: seq<string>, values: seq<string>)
    requires (forall c :: c in values ==> c !in keys) && Identifies(keys, multiset(source))
    ensures Unmatched(Upsert(table, source, keys, values), source, keys) == Unmatched(table, source, keys)
    ensures multiset(KeyedLoad(table, source, keys, values)) + multiset(Unmatched(table, source, keys))
      == multiset(Upsert(table, source, keys, values))
  {
    DeletesUnmatched(Upsert(table, source, keys, values), source, keys);
    var inserted := Unmatched(source, table, keys);
    forall r | r in inserted ensures HasMatch(r, source, keys) {
      LoadMembers(source, table, keys, values, r);
      MatchesItself(r, source, keys);
    }
    UnmatchedConcat(UpdateAll(table, source, keys, values), inserted, source, keys);
    NoneUnmatched(inserted, source, keys);
    UpdatingKeepsUnmatched(table, source, keys, values);
  }

  /**
   * The two diffs and the load agree. With a key that identifies both versions, the keyless
   * additions are the keyed additions and changes, the keyless removals the keyed removals
   * and changes; and the keyed load's first statement inserts and updates, and its second
   * deletes from what the first has left, exactly as many rows as the keyed diff counts as
   * added, changed and removed.
   */
  lemma DiffsAndLoadAgree(from: seq<Row>, to: seq<Row>, names: set<string>, keys: seq<string>, values: seq<string>)
    requires Comparable(from, to, names, keys, values)
    ensures var added, removed, changed := KeyedTotal(from, to, Added, keys, values),
        KeyedTotal(from, to, Removed, keys, values), KeyedTotal(from, to, Changed, keys, values);
      && SideTotal(from, to, true) == added + changed
      && SideTotal(from, to, false) == removed + changed
      && |Unmatched(to, from, keys)| == added
      && |ToUpdate(from, to, keys, values)| == changed
      && |Unmatched(Upsert(from, to, keys, values), to, keys)| == removed
  {
    SecondDeletes(from, to, keys, values);
    forall r | r in from ensures r in multiset(from) {}
    forall r | r in to ensures r in multiset(to) {}
    KindsCounted(from, to, keys, values);
    DidAdd(from, to, keys, values);
    DidAdd(to, from, keys, values);
    TotalsAreDifferences(from, to);
    NotInIsDifference(from, to);
    NotInIsDifference(to, from);
    NotInSplits(to, to, from, names, keys, values);
    NotInSplits(from, from, to, names, keys, values);
    ChangedBothWays(from, to, names, keys, values);
  }

  lemma KindsCounted(from: seq<Row>, to: seq<Row>, keys: seq<string>, values: seq<string>)
    requires keys != [] && Identifies(keys, multiset(from)) && Identifies(keys, multiset(to))
    ensures KeyedTotal(from, to, Added, keys, values) == CountDid(to, from, Added, keys, values)
    ensures KeyedTotal(from, to, Changed, keys, values) == CountDid(to, from, Changed, keys, values)
    ensures KeyedTotal(from, to, Removed, keys, values)
      == CountDid(to, from, Removed, keys, values) + |Unmatched(from, to, keys)|
  {
    forall r | r in from ensures r in multiset(from) {}
    forall r | r in to ensures r in multiset(to) {}
    assert NonNullKeys(from, keys) && NonNullKeys(to, keys);
    JoinNewerCount(from, to, keys, values, Added);
    JoinNewerCount(from, to, keys, values, Changed);
    JoinNewerCount(from, to, keys, values, Removed);
    JoinOlderCount(from, to, keys, values, Added);
    JoinOlderCount(from, to, keys, values, Changed);
    JoinOlderCount(from, to, keys, values, Removed);
    CountConcat(JoinNewer(from, to, keys), JoinOlder(from, to, keys), Added, keys, values);
    CountConcat(JoinNewer(from, to, keys), JoinOlder(from, to, keys), Changed, keys, values);
    CountConcat(JoinNewer(from, to, keys), JoinOlder(from, to, keys), Removed, keys, values);
  }

  // ---- and row for row ----

  lemma {:induction false} JoinOneMember(t: Row, from: seq<Row>, keys: seq<string>, p: Pair)
    ensures p in JoinOne(t, from, keys)
      <==> p.before.Some? && p.after == Some(t) && p.before.value in from && KeyMatch(keys, p.before.value, t)
  {
    if from != [] {
      assert from == [from[0]] + from[1..];
      JoinOneMember(t, from[1..], keys, p);
    }
  }

  lemma {:induction false} JoinNewerMember(from: seq<Row>, to: seq<Row>, keys: seq<string>, p: Pair)
    ensures p in JoinNewer(from, to, keys)
      <==> p.after.Some? && p.after.value in to
           && (if p.before.Some? then p.before.value in from && KeyMatch(keys, p.before.value, p.after.value)
               else !HasMatch(p.after.value, from, keys))
  {
    if to != [] {
      assert to == [to[0]] + to[1..];
      JoinNewerMember(from, to[1..], keys, p);
      JoinOneMember(to[0], from, keys, p);
      if p.before.Some? && p.before.value in from && KeyMatch(keys, p.before.value, to[0]) {
        assert KeyMatch(keys, to[0], p.before.value);
      }
    }
  }

  lemma {:induction false} JoinOlderMember(from: seq<Row>, to: seq<Row>, keys: seq<string>, p: Pair)
    ensures p in JoinOlder(from, to, keys)
      <==> p.before.Some? && p.after.None? && p.before.value in from && !HasMatch(p.before.value, to, keys)
  {
    if from != [] {
      assert from == [from[0]] + from[1..];
      JoinOlderMember(from[1..], to, keys, p);
    }
  }

  lemma {:induction false} LoadMembers(a: seq<Row>, b: seq<Row>, keys: seq<string>, values: seq<string>, r: Row)
    ensures r in Unmatched(a, b, keys) <==> r in a && !HasMatch(r, b, keys)
    ensures r in ToUpdate(a, b, keys, values)
      <==> r in a && HasMatch(r, b, keys) && ValuesDiffer(values, r, MatchOf(r, b, keys))
  {
    if a != [] {
      assert a == [a[0]] + a[1..];
      LoadMembers(a[1..], b, keys, values, r);
    }
  }

  /** The newer row with an older row's key is what the load makes of the older row. */
  lemma MatchIsUpdated(f: Row, from: seq<Row>, to: seq<Row>, names: set<string>, keys: seq<string>, values: seq<string>)
    requires Comparable(from, to, names, keys, values) && f in from
    ensures HasMatch(f, to, keys) ==> MatchOf(f, to, keys) == Updated(f, to, keys, values)
    ensures forall t :: t in to && KeyMatch(keys, f, t) ==> HasMatch(f, to, keys) && t == MatchOf(f, to, keys)
  {
    if HasMatch(f, to, keys) {
      var m := MatchOf(f, to, keys);
      UpdatedIsSource(f, m, to, names, keys, values);
      assert m in multiset(to);
      forall t | t in to && KeyMatch(keys, f, t) ensures t == m {
        assert t in multiset(to) && KeyMatch(keys, m, t);
      }
    }
  }

  /**
   * The rows the keyed diff shows are the rows the keyed load wrote: an added row is one it
   * inserted, a removed row one its second statement deleted, and a changed row one it
   * updated, to the row shown after it.
   */
  lemma RowsAgree(from: seq<Row>, to: seq<Row>, names: set<string>, keys: seq<string>, values: seq<string>, p: Pair)
    requires Comparable(from, to, names, keys, values)
    ensures p in Join(from, to, keys) && Acted(p, keys, values) <==>
      match (p.before, p.after)
      case (None, Some(t)) => t in Unmatched(to, from, keys)
      case (Some(f), None) => f in Unmatched(Upsert(from, to, keys, values), to, keys)
      case (Some(f), Some(t)) => f in ToUpdate(from, to, keys, values) && t == Updated(f, to, keys, values)
      case (None, None) => false
  {
    assert Unmatched(Upsert(from, to, keys, values), to, keys) == Unmatched(from, to, keys) by {
      SecondDeletes(from, to, keys, values);
    }
    hide Upsert;
    JoinNewerMember(from, to, keys, p);
    JoinOlderMember(from, to, keys, p);
    if p.before.Some? {
      LoadMembers(from, to, keys, values, p.before.value);
      assert p.before.value in from ==> p.before.value in multiset(from);
    }
    if p.after.Some? {
      LoadMembers(to, from, keys, values, p.after.value);
      assert p.after.value in to ==> p.after.value in multiset(to);
    }
    if p.before.Some? && p.before.value in from {
      MatchIsUpdated(p.before.value, from, to, names, keys, values);
      hide Updated, Identifies;
    }
  }
}
