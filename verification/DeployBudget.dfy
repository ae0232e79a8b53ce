/**
 * The connections a multi-site deploy may open (ADR-041): sites roll in waves, and the shared
 * database must carry every site at its largest and, on top of that, the new tasks of the
 * dearest sites that may roll at once.
 */
module DeployBudget {
  import opened Basics
  import ConnectionLimits

  // ---- waves ----

  function Chunked<T>(s: seq<T>, c: nat): seq<seq<T>>
    requires c > 0
  {
    if s == [] then [] else [s[..Min(c, |s|)]] + Chunked(s[Min(c, |s|)..], c)
  }

  /** The first site alone, then `c` at a time. */
  function Waves<T>(sites: seq<T>, c: nat): seq<seq<T>>
    requires c > 0
  {
    if sites == [] then [] else [[sites[0]]] + Chunked(sites[1..], c)
  }

  method DeployWaves<T>(sites: seq<T>, concurrency: nat) returns (waves: seq<seq<T>>)
    requires concurrency > 0
    ensures waves == Waves(sites, concurrency)
  {
    waves := if |sites| > 0 then [[sites[0]]] else [];
    var i := 1;
    while i < |sites|
      invariant i >= 1 && (|sites| > 0 ==> waves + Chunked(sites[Min(i, |sites|)..], concurrency) == Waves(sites, concurrency))
      invariant |sites| == 0 ==> waves == []
    {
      var end := Min(i + concurrency, |sites|);
      assert sites[i..][..Min(concurrency, |sites| - i)] == sites[i..end];
      assert sites[i..][Min(concurrency, |sites| - i)..] == sites[end..];
      waves := waves + [sites[i..end]];
      i := i + concurrency;
    }
  }

  function ChunkOf(t: nat, c: nat): nat
    requires c > 0
  {
    if t < c then 0 else 1 + ChunkOf(t - c, c)
  }

  /** The wave the site at `i` is in. */
  function WaveOf(i: nat, c: nat): nat
    requires c > 0
  {
    if i == 0 then 0 else 1 + ChunkOf(i - 1, c)
  }

  function Flatten<T>(waves: seq<seq<T>>): seq<T> {
    if waves == [] then [] else waves[0] + Flatten(waves[1..])
  }

  lemma {:induction false} ChunkedMeans<T>(s: seq<T>, c: nat)
    requires c > 0
    ensures Flatten(Chunked(s, c)) == s
    ensures forall w :: w in Chunked(s, c) ==> 0 < |w| <= c
    ensures forall t :: 0 <= t < |s| ==> ChunkOf(t, c) < |Chunked(s, c)| && s[t] in Chunked(s, c)[ChunkOf(t, c)]
  {
    if s != [] {
      var k := Min(c, |s|);
      ChunkedMeans(s[k..], c);
      assert s == s[..k] + s[k..];
      forall t | 0 <= t < |s|
        ensures ChunkOf(t, c) < |Chunked(s, c)| && s[t] in Chunked(s, c)[ChunkOf(t, c)]
      {
        if t < c { assert s[t] == s[..k][t]; } else { assert s[t] == s[k..][t - c]; }
      }
    }
  }

  /** The waves are the sites in order: one canary, then waves of at most `c`, each site in its own. */
  lemma WavesMean<T>(sites: seq<T>, c: nat)
    requires c > 0 && sites != []
    ensures Flatten(Waves(sites, c)) == sites && |Waves(sites, c)[0]| == 1
    ensures forall w :: w in Waves(sites, c) ==> 0 < |w| <= c
    ensures forall i :: 0 <= i < |sites| ==> WaveOf(i, c) < |Waves(sites, c)| && sites[i] in Waves(sites, c)[WaveOf(i, c)]
  {
    ChunkedMeans(sites[1..], c);
    hide Chunked, ChunkOf;
    assert sites == [sites[0]] + sites[1..];
    assert Waves(sites, c)[1..] == Chunked(sites[1..], c);
    forall i | 0 <= i < |sites|
      ensures WaveOf(i, c) < |Waves(sites, c)| && sites[i] in Waves(sites, c)[WaveOf(i, c)]
    {
      hide Flatten;
      if i > 0 { assert sites[i] == sites[1..][i - 1]; }
    }
  }

  // ---- the order of a deploy ----

  /** Every stack of a wave waits for every stack of the wave before. */
  predicate DependsOn(i: nat, j: nat, c: nat)
    requires c > 0
  {
    WaveOf(i, c) == WaveOf(j, c) + 1
  }

  /** Waits for, over `steps` dependencies. */
  ghost predicate WaitsFor(i: nat, j: nat, c: nat, steps: nat)
    requires c > 0
    decreases steps
  {
    if steps == 0 then i == j else exists k: nat :: k < i && DependsOn(i, k, c) && WaitsFor(k, j, c, steps - 1)
  }

  function PreviousOf(i: nat, c: nat): nat
    requires c > 0 && i > 0
  {
    if i <= c then 0 else i - c
  }

  lemma PreviousWave(i: nat, c: nat)
    requires c > 0 && i > 0
    ensures PreviousOf(i, c) < i && DependsOn(i, PreviousOf(i, c), c)
  {
  }

  lemma {:induction false} WavesGrow(i: nat, j: nat, c: nat)
    requires c > 0 && i <= j
    ensures WaveOf(i, c) <= WaveOf(j, c)
  {
    if i > c { WavesGrow(i - c, j - c, c); }
  }

  lemma {:induction false} WaitsAcross(i: nat, j: nat, c: nat)
    requires c > 0 && WaveOf(i, c) > WaveOf(j, c)
    ensures WaitsFor(i, j, c, WaveOf(i, c) - WaveOf(j, c))
    decreases i
  {
    if i <= j { WavesGrow(i, j, c); }
    var steps := WaveOf(i, c) - WaveOf(j, c);
    if steps == 1 {
      assert WaitsFor(j, j, c, 0) && DependsOn(i, j, c);
    } else {
      PreviousWave(i, c);
      var k := PreviousOf(i, c);
      WaitsAcross(k, j, c);
      assert WaitsFor(k, j, c, steps - 1);
    }
  }

  lemma {:induction false} WaitsMeansLater(i: nat, j: nat, c: nat, steps: nat)
    requires c > 0 && WaitsFor(i, j, c, steps)
    ensures WaveOf(i, c) == WaveOf(j, c) + steps
    decreases steps
  {
    if steps > 0 {
      var k: nat :| k < i && DependsOn(i, k, c) && WaitsFor(k, j, c, steps - 1);
      WaitsMeansLater(k, j, c, steps - 1);
    }
  }

  ghost predicate Unordered(i: nat, j: nat, c: nat)
    requires c > 0
  {
    forall steps: nat :: steps > 0 ==> !WaitsFor(i, j, c, steps) && !WaitsFor(j, i, c, steps)
  }

  /** Two sites are unordered by the dependencies exactly when they are in one wave. */
  lemma UnorderedIsOneWave(i: nat, j: nat, c: nat)
    requires c > 0
    ensures Unordered(i, j, c) <==> WaveOf(i, c) == WaveOf(j, c)
  {
    if WaveOf(i, c) > WaveOf(j, c) {
      WaitsAcross(i, j, c);
    } else if WaveOf(j, c) > WaveOf(i, c) {
      WaitsAcross(j, i, c);
    } else {
      forall steps: nat | steps > 0 ensures !WaitsFor(i, j, c, steps) && !WaitsFor(j, i, c, steps) {
        if WaitsFor(i, j, c, steps) { WaitsMeansLater(i, j, c, steps); }
        if WaitsFor(j, i, c, steps) { WaitsMeansLater(j, i, c, steps); }
      }
    }
  }

  datatype Status = Pending | Rolling | Deployed

  datatype Act = Start(i: nat) | Finish(i: nat)

  predicate Ready(s: seq<Status>, i: nat, c: nat)
    requires c > 0
  {
    i < |s| && s[i].Pending? && forall j: nat :: j < |s| && DependsOn(i, j, c) ==> s[j].Deployed?
  }

  function Acted(s: seq<Status>, a: Act, c: nat): Option<seq<Status>>
    requires c > 0
  {
    match a
    case Start(i) => if Ready(s, i, c) then Some(s[i := Rolling]) else None
    case Finish(i) => if i < |s| && s[i].Rolling? then Some(s[i := Deployed]) else None
  }

  /** Where a deploy of `n` sites has come to, if it can be taken this way. */
  function Deploy(n: nat, acts: seq<Act>, c: nat): (s: Option<seq<Status>>)
    requires c > 0
    ensures s.Some? ==> |s.value| == n
  {
    if acts == [] then Some(seq(n, _ => Pending))
    else match Deploy(n, acts[..|acts| - 1], c)
      case None => None
      case Some(s) => Acted(s, acts[|acts| - 1], c)
  }

  /** A site under way has every earlier wave behind it. */
  predicate InOrder(s: seq<Status>, c: nat)
    requires c > 0
  {
    forall i, j :: 0 <= i < |s| && 0 <= j < |s| && WaveOf(i, c) > WaveOf(j, c) && !s[i].Pending? ==> s[j].Deployed?
  }

  lemma StartInOrder(s: seq<Status>, i: nat, c: nat)
    requires c > 0 && InOrder(s, c) && Ready(s, i, c)
    ensures InOrder(s[i := Rolling], c)
  {
    var next := s[i := Rolling];
    forall k, j | 0 <= k < |s| && 0 <= j < |s| && WaveOf(k, c) > WaveOf(j, c) && !next[k].Pending?
      ensures next[j].Deployed?
    {
      if k == i {
        if !DependsOn(i, j, c) {
          PreviousWave(i, c);
          var p := PreviousOf(i, c);
          assert s[p].Deployed? && WaveOf(p, c) > WaveOf(j, c);
        }
      }
    }
  }

  lemma {:induction false} DeployInOrder(n: nat, acts: seq<Act>, c: nat)
    requires c > 0 && Deploy(n, acts, c).Some?
    ensures InOrder(Deploy(n, acts, c).value, c)
  {
    if acts != [] {
      var before, a := acts[..|acts| - 1], acts[|acts| - 1];
      DeployInOrder(n, before, c);
      if a.Start? { StartInOrder(Deploy(n, before, c).value, a.i, c); }
    }
  }

  /** What is reached of `s` when only its first `k` sites have been seen to. */
  function UpTo(s: seq<Status>, k: nat): seq<Status>
    requires k <= |s|
  {
    seq(|s|, i requires 0 <= i < |s| => if i < k then s[i] else Pending)
  }

  lemma FinishedFirst(s: seq<Status>, k: nat, c: nat)
    requires c > 0 && InOrder(s, c) && k < |s| && !s[k].Pending?
    ensures Ready(UpTo(s, k), k, c)
  {
    forall j: nat | j < |s| && DependsOn(k, j, c) ensures UpTo(s, k)[j].Deployed? {
      if j >= k { WavesGrow(k, j, c); }
    }
  }

  lemma ActsOn(n: nat, acts: seq<Act>, a: Act, c: nat)
    requires c > 0 && Deploy(n, acts, c).Some?
    ensures Deploy(n, acts + [a], c) == Acted(Deploy(n, acts, c).value, a, c)
  {
    assert (acts + [a])[..|acts|] == acts;
  }

  /** Whatever is in order is reached by some deploy. */
  lemma {:induction false} OrderIsReached(s: seq<Status>, k: nat, c: nat) returns (acts: seq<Act>)
    requires c > 0 && InOrder(s, c) && k <= |s|
    ensures Deploy(|s|, acts, c) == Some(UpTo(s, k))
    decreases k
  {
    if k == 0 {
      acts := [];
      assert UpTo(s, 0) == seq(|s|, _ => Pending);
    } else {
      acts := OrderIsReached(s, k - 1, c);
      var at := UpTo(s, k - 1);
      if !s[k - 1].Pending? {
        FinishedFirst(s, k - 1, c);
        ActsOn(|s|, acts, Start(k - 1), c);
        acts := acts + [Start(k - 1)];
        if s[k - 1].Deployed? {
          ActsOn(|s|, acts, Finish(k - 1), c);
          acts := acts + [Finish(k - 1)];
          assert at[k - 1 := Rolling][k - 1 := Deployed] == UpTo(s, k);
        } else {
          assert at[k - 1 := Rolling] == UpTo(s, k);
        }
      } else {
        assert at == UpTo(s, k);
      }
    }
  }

  // ---- how many roll at once ----

  function Count(mask: seq<bool>): nat {
    if mask == [] then 0 else (if mask[0] then 1 else 0) + Count(mask[1..])
  }

  lemma {:induction false} CountParts(mask: seq<bool>, k: nat)
    requires k <= |mask|
    ensures Count(mask) == Count(mask[..k]) + Count(mask[k..])
    ensures Count(mask[..k]) <= k
  {
    if k > 0 {
      CountParts(mask[1..], k - 1);
      assert mask[..k][1..] == mask[1..][..k - 1] && mask[1..][k - 1..] == mask[k..];
    } else {
      assert mask[0..] == mask;
    }
  }

  lemma {:induction false} CountNone(mask: seq<bool>)
    requires forall t :: 0 <= t < |mask| ==> !mask[t]
    ensures Count(mask) == 0
  {
    if mask != [] { CountNone(mask[1..]); }
  }

  lemma {:induction false} CountInChunk<T>(s: seq<T>, mask: seq<bool>, v: nat, c: nat)
    requires c > 0 && |mask| == |s| && forall t: nat :: t < |mask| && mask[t] ==> ChunkOf(t, c) == v
    ensures Count(mask) > 0 ==> v < |Chunked(s, c)| && Count(mask) <= |Chunked(s, c)[v]|
  {
    if s != [] {
      var k := Min(c, |s|);
      CountParts(mask, k);
      if v == 0 {
        assert forall t: nat :: t < |mask[k..]| ==> mask[k..][t] == mask[k + t] && !mask[k + t];
        CountNone(mask[k..]);
      } else {
        CountNone(mask[..k]);
        assert forall t: nat :: t < |mask[k..]| ==> mask[k..][t] == mask[k + t];
        CountInChunk(s[k..], mask[k..], v - 1, c);
      }
    }
  }

  function MaxLength<T>(waves: seq<seq<T>>): nat {
    if waves == [] then 0 else Max(|waves[0]|, MaxLength(waves[1..]))
  }

  lemma {:induction false} MaxLengthBounds<T>(waves: seq<seq<T>>, v: nat)
    requires v < |waves|
    ensures |waves[v]| <= MaxLength(waves)
  {
    if v > 0 { MaxLengthBounds(waves[1..], v - 1); }
  }

  lemma {:induction false} MaxLengthWithin<T>(waves: seq<seq<T>>, most: nat)
    requires forall w :: w in waves ==> |w| <= most
    ensures MaxLength(waves) <= most
  {
    if waves != [] { MaxLengthWithin(waves[1..], most); }
  }

  function RollingSites<T>(sites: seq<T>, c: nat): nat
    requires c > 0
  {
    MaxLength(Waves(sites, c))
  }

  /** As many sites roll at once as are told to, of those behind the canary; where there are none, the canary alone. */
  lemma RollingSitesAre<T>(sites: seq<T>, c: nat)
    requires c > 0
    ensures RollingSites(sites, c) == if |sites| <= 1 then |sites| else Min(c, |sites| - 1)
  {
    if sites != [] {
      var waves := Waves(sites, c);
      ChunkedMeans(sites[1..], c);
      assert waves[1..] == Chunked(sites[1..], c) && |waves[0]| == 1;
      MaxLengthWithin(waves[1..], Min(c, |sites| - 1)) by {
        forall w | w in waves[1..] ensures |w| <= Min(c, |sites| - 1) { ChunkIsPart(sites[1..], c, w); }
      }
      if |sites| > 1 { MaxLengthBounds(waves[1..], 0); }
    }
  }

  lemma {:induction false} ChunkIsPart<T>(s: seq<T>, c: nat, w: seq<T>)
    requires c > 0 && w in Chunked(s, c)
    ensures |w| <= |s|
  {
    if s != [] && w != s[..Min(c, |s|)] { ChunkIsPart(s[Min(c, |s|)..], c, w); }
  }

  /** Sites of one wave, however chosen, are no more than the largest wave. */
  lemma OneWaveCounts<T>(sites: seq<T>, mask: seq<bool>, v: nat, c: nat)
    requires c > 0 && sites != [] && |mask| == |sites| && forall i: nat :: i < |mask| && mask[i] ==> WaveOf(i, c) == v
    ensures Count(mask) <= RollingSites(sites, c)
  {
    var waves := Waves(sites, c);
    MaxLengthBounds(waves, 0);
    if v == 0 {
      CountNone(mask[1..]);
    } else {
      assert forall t: nat :: t < |mask[1..]| && mask[1..][t] ==> mask[t + 1] && ChunkOf(t, c) == v - 1;
      CountInChunk(sites[1..], mask[1..], v - 1, c);
      assert waves[1..] == Chunked(sites[1..], c);
      if Count(mask[1..]) > 0 { MaxLengthBounds(waves, v); }
    }
  }

  function RollingMask(s: seq<Status>): (mask: seq<bool>)
    ensures |mask| == |s|
  {
    seq(|s|, i requires 0 <= i < |s| => s[i].Rolling?)
  }

  /** At every moment of a deploy the sites that roll are of one wave, and no more than its size. */
  lemma RollingIsOneWave<T>(sites: seq<T>, acts: seq<Act>, c: nat)
    requires c > 0 && sites != [] && Deploy(|sites|, acts, c).Some?
    ensures var s := Deploy(|sites|, acts, c).value;
      && (forall i, j :: 0 <= i < |s| && 0 <= j < |s| && s[i].Rolling? && s[j].Rolling? ==> WaveOf(i, c) == WaveOf(j, c))
      && Count(RollingMask(s)) <= RollingSites(sites, c)
  {
    DeployInOrder(|sites|, acts, c);
    var s := Deploy(|sites|, acts, c).value;
    hide Deploy, WaveOf;
    if exists i :: 0 <= i < |s| && s[i].Rolling? {
      var i :| 0 <= i < |s| && s[i].Rolling?;
      OneWaveCounts(sites, RollingMask(s), WaveOf(i, c), c);
    } else {
      CountNone(RollingMask(s));
    }
  }

  // ---- what they cost ----

  function Sum(s: seq<nat>): nat { if s == [] then 0 else s[0] + Sum(s[1..]) }

  function Insert(x: nat, s: seq<nat>): (r: seq<nat>)
    ensures |r| == |s| + 1
  {
    if s == [] || x >= s[0] then [x] + s else [s[0]] + Insert(x, s[1..])
  }

  function SortDescending(s: seq<nat>): (r: seq<nat>)
    ensures |r| == |s|
  {
    if s == [] then [] else Insert(s[0], SortDescending(s[1..]))
  }

  predicate Descending(s: seq<nat>) { forall i, j :: 0 <= i < j < |s| ==> s[i] >= s[j] }

  lemma {:induction false} InsertAdds(x: nat, s: seq<nat>)
    ensures multiset(Insert(x, s)) == multiset{x} + multiset(s)
  {
    if s != [] && x < s[0] {
      InsertAdds(x, s[1..]);
      assert s == [s[0]] + s[1..];
    }
  }

  lemma {:induction false} InsertKeeps(x: nat, s: seq<nat>)
    requires Descending(s)
    ensures Descending(Insert(x, s))
  {
    if s != [] && x < s[0] {
      InsertKeeps(x, s[1..]);
      var rest := Insert(x, s[1..]);
      InsertAdds(x, s[1..]);
      hide Insert;
      forall j | 0 <= j < |rest| ensures rest[j] <= s[0] {
        assert rest[j] in multiset(rest);
        assert rest[j] == x || rest[j] in s[1..];
      }
    }
  }

  lemma {:induction false} SortSorts(s: seq<nat>)
    ensures Descending(SortDescending(s)) && multiset(SortDescending(s)) == multiset(s)
  {
    if s != [] {
      SortSorts(s[1..]);
      InsertKeeps(s[0], SortDescending(s[1..]));
      InsertAdds(s[0], SortDescending(s[1..]));
      hide Insert, Descending;
      assert s == [s[0]] + s[1..];
    }
  }

  /** The cost of the `count` dearest of a descending list. */
  function Top(s: seq<nat>, count: nat): nat { Sum(s[..Min(count, |s|)]) }

  lemma TopStep(s: seq<nat>, count: nat)
    requires s != [] && count > 0
    ensures Top(s, count) == s[0] + Top(s[1..], count - 1)
  {
    assert s[..Min(count, |s|)][1..] == s[1..][..Min(count - 1, |s| - 1)];
  }

  lemma {:induction false} TopGrows(s: seq<nat>, a: nat, b: nat)
    requires a <= b
    ensures Top(s, a) <= Top(s, b)
  {
    if a > 0 && s != [] {
      TopStep(s, a);
      TopStep(s, b);
      TopGrows(s[1..], a - 1, b - 1);
    }
  }

  /** One more dear site takes at most its own cost, and the dearest of the list bounds each. */
  lemma {:induction false} TopNext(s: seq<nat>, count: nat, x: nat)
    requires Descending(s) && count > 0 && (s == [] || x >= s[0])
    ensures Top(s, count) <= x + Top(s, count - 1)
  {
    if s != [] {
      TopStep(s, count);
      if count > 1 {
        TopStep(s, count - 1);
        TopNext(s[1..], count - 1, x);
      }
    }
  }

  lemma {:induction false} TopInsert(x: nat, s: seq<nat>, count: nat)
    requires Descending(s)
    ensures Top(Insert(x, s), count) >= Top(s, count)
    ensures count > 0 ==> Top(Insert(x, s), count) >= x + Top(s, count - 1)
  {
    if count > 0 {
      TopStep(Insert(x, s), count);
      if s == [] || x >= s[0] {
        TopNext(s, count, x);
        assert Insert(x, s)[1..] == s;
      } else {
        assert Insert(x, s)[1..] == Insert(x, s[1..]);
        TopInsert(x, s[1..], count - 1);
        TopStep(s, count);
        if count > 1 { TopStep(s, count - 1); }
      }
    }
  }

  function SumWhere(costs: seq<nat>, mask: seq<bool>): nat
    requires |mask| == |costs|
  {
    if costs == [] then 0 else (if mask[0] then costs[0] else 0) + SumWhere(costs[1..], mask[1..])
  }

  /** Any sites at all, up to `count` of them, cost no more than the `count` dearest. */
  lemma {:induction false} DearestBound(costs: seq<nat>, mask: seq<bool>, count: nat)
    requires |mask| == |costs| && Count(mask) <= count
    ensures SumWhere(costs, mask) <= Top(SortDescending(costs), count)
  {
    if costs != [] {
      SortSorts(costs[1..]);
      hide Top, Insert, Descending;
      TopInsert(costs[0], SortDescending(costs[1..]), count);
      DearestBound(costs[1..], mask[1..], if mask[0] then count - 1 else count);
    }
  }

  lemma {:induction false} TopInsertIs(x: nat, s: seq<nat>, count: nat)
    requires Descending(s)
    ensures Top(Insert(x, s), count) == Top(s, count) || (count > 0 && Top(Insert(x, s), count) == x + Top(s, count - 1))
  {
    if count > 0 {
      TopStep(Insert(x, s), count);
      if s == [] || x >= s[0] {
        assert Insert(x, s)[1..] == s;
      } else {
        assert Insert(x, s)[1..] == Insert(x, s[1..]);
        TopInsertIs(x, s[1..], count - 1);
        TopStep(s, count);
        if count > 1 { TopStep(s, count - 1); }
      }
    }
  }

  /** And some sites, no more than that many, cost just as much. */
  lemma {:induction false} DearestIsReached(costs: seq<nat>, count: nat) returns (mask: seq<bool>)
    ensures |mask| == |costs| && Count(mask) <= count
    ensures SumWhere(costs, mask) == Top(SortDescending(costs), count)
  {
    if costs == [] {
      mask := [];
    } else {
      var x, rest := costs[0], SortDescending(costs[1..]);
      SortSorts(costs[1..]);
      TopInsertIs(x, rest, count);
      hide Top, Insert, Descending;
      if Top(Insert(x, rest), count) == Top(rest, count) {
        var more := DearestIsReached(costs[1..], count);
        mask := [false] + more;
      } else {
        var more := DearestIsReached(costs[1..], count - 1);
        mask := [true] + more;
      }
    }
  }

  // ---- the connections of a site ----

  datatype Size = Size(webPool: nat, workerPool: nat, webMin: nat, webMax: nat, workerMin: nat, workerMax: nat)

  function SteadyOf(z: Size): nat { z.webPool * z.webMax + z.workerPool * z.workerMax }

  function RollOf(z: Size): nat { z.webPool * z.webMin + z.workerPool * z.workerMin }

  function SteadyCosts(sizes: seq<Size>): (costs: seq<nat>)
    ensures |costs| == |sizes|
  {
    seq(|sizes|, i requires 0 <= i < |sizes| => SteadyOf(sizes[i]))
  }

  function Steady(sizes: seq<Size>): nat { Sum(SteadyCosts(sizes)) }

  function RollCosts(sizes: seq<Size>): (costs: seq<nat>)
    ensures |costs| == |sizes|
  {
    seq(|sizes|, i requires 0 <= i < |sizes| => RollOf(sizes[i]))
  }

  function RollingFor(sizes: seq<Size>, count: nat): nat { Top(SortDescending(RollCosts(sizes)), count) }

  function WorstCase(sizes: seq<Size>, c: nat): nat
    requires c > 0
  {
    Steady(sizes) + RollingFor(sizes, RollingSites(sizes, c))
  }

  datatype Verdict = Rejected | Warned | Passed

  function Judge(worst: nat, maxConnections: nat): Verdict {
    if worst > maxConnections then Rejected
    else if worst as real > maxConnections as real * 0.7 then Warned
    else Passed
  }

  /** Rejected just when the worst case passes what the database allows; let pass just when it leaves three tenths of it. */
  lemma JudgedByHeadroom(worst: nat, maxConnections: nat)
    ensures Judge(worst, maxConnections).Rejected? <==> worst > maxConnections
    ensures Judge(worst, maxConnections).Passed? <==> 10 * worst <= 7 * maxConnections
  {
  }

  // ---- a moment of a deploy ----

  /** A site as it runs before the deploy, unless it is new, and as it is deployed. */
  datatype Site = Site(before: Option<Size>, after: Size)

  function Afters(sites: seq<Site>): (sizes: seq<Size>)
    ensures |sizes| == |sites|
  {
    seq(|sites|, i requires 0 <= i < |sites| => sites[i].after)
  }

  /** The pools of a site's tasks at one moment: what each has open, of the old tasks and the new. */
  datatype Pools = Pools(web: seq<nat>, newWeb: seq<nat>, worker: seq<nat>, newWorker: seq<nat>)

  predicate AtMost(pools: seq<nat>, tasks: nat, pool: nat) {
    |pools| <= tasks && forall p :: p in pools ==> p <= pool
  }

  const NONE := Size(0, 0, 0, 0, 0, 0)

  /** The settings a site's old tasks run under: until its own deploy is done, those from before. */
  function OldSize(x: Site, st: Status): Size {
    if st.Deployed? then x.after else if x.before.Some? then x.before.value else NONE
  }

  /** The settings its new tasks start under, which it has only while it rolls. */
  function NewSize(x: Site, st: Status): Size { if st.Rolling? then x.after else NONE }

  /** No more old tasks than the service scales to, and no more new ones than it starts with. */
  predicate Possible(x: Site, p: Pools, st: Status) {
    var old', new' := OldSize(x, st), NewSize(x, st);
    && AtMost(p.web, old'.webMax, old'.webPool) && AtMost(p.worker, old'.workerMax, old'.workerPool)
    && AtMost(p.newWeb, new'.webMin, new'.webPool) && AtMost(p.newWorker, new'.workerMin, new'.workerPool)
  }

  function OpenOf(p: Pools): nat { Sum(p.web) + Sum(p.newWeb) + Sum(p.worker) + Sum(p.newWorker) }

  function OpenIn(ps: seq<Pools>): nat {
    Sum(seq(|ps|, i requires 0 <= i < |ps| => OpenOf(ps[i])))
  }

  /** The most a site can have open. */
  function CostAt(x: Site, st: Status): nat { SteadyOf(OldSize(x, st)) + RollOf(NewSize(x, st)) }

  function MomentCosts(sites: seq<Site>, s: seq<Status>): (costs: seq<nat>)
    requires |s| == |sites|
    ensures |costs| == |sites|
  {
    seq(|sites|, i requires 0 <= i < |sites| => CostAt(sites[i], s[i]))
  }

  ghost predicate AllPossible(sites: seq<Site>, ps: seq<Pools>, s: seq<Status>) {
    |sites| == |ps| == |s| && forall i :: 0 <= i < |sites| ==> Possible(sites[i], ps[i], s[i])
  }

  lemma {:induction false} SumWithin(pools: seq<nat>, tasks: nat, pool: nat)
    requires AtMost(pools, tasks, pool)
    ensures Sum(pools) <= pool * tasks
  {
    if pools != [] {
      assert pools[0] in pools && forall p :: p in pools[1..] ==> p in pools;
      SumWithin(pools[1..], tasks - 1, pool);
      assert pool * tasks == pool + pool * (tasks - 1);
    }
  }

  lemma {:induction false} SumOfSame(tasks: nat, pool: nat)
    ensures Sum(seq(tasks, _ => pool)) == pool * tasks && AtMost(seq(tasks, _ => pool), tasks, pool)
  {
    if tasks > 0 {
      SumOfSame(tasks - 1, pool);
      assert seq(tasks, _ => pool)[1..] == seq(tasks - 1, _ => pool);
      assert pool * tasks == pool + pool * (tasks - 1);
    }
  }

  lemma {:induction false} SumAtMost(a: seq<nat>, b: seq<nat>)
    requires |a| == |b| && forall i :: 0 <= i < |a| ==> a[i] <= b[i]
    ensures Sum(a) <= Sum(b)
  {
    if a != [] { SumAtMost(a[1..], b[1..]); }
  }

  lemma SiteWithin(x: Site, p: Pools, st: Status)
    requires Possible(x, p, st)
    ensures OpenOf(p) <= CostAt(x, st)
  {
    var old', new' := OldSize(x, st), NewSize(x, st);
    SumWithin(p.web, old'.webMax, old'.webPool);
    SumWithin(p.worker, old'.workerMax, old'.workerPool);
    SumWithin(p.newWeb, new'.webMin, new'.webPool);
    SumWithin(p.newWorker, new'.workerMin, new'.workerPool);
  }

  /** A site whose settings stay costs its steady pools, and while it rolls those of the tasks a deploy starts besides. */
  lemma UnchangedCosts(z: Size)
    ensures var x := Site(Some(z), z); var steady := z.webPool * z.webMax + z.workerPool * z.workerMax;
      && CostAt(x, Pending) == CostAt(x, Deployed) == SteadyOf(z) == steady
      && CostAt(x, Rolling) == SteadyOf(z) + RollOf(z) == steady + z.webPool * z.webMin + z.workerPool * z.workerMin
  {
  }

  function FullPools(x: Site, st: Status): Pools {
    var old', new' := OldSize(x, st), NewSize(x, st);
    Pools(seq(old'.webMax, _ => old'.webPool), seq(new'.webMin, _ => new'.webPool),
          seq(old'.workerMax, _ => old'.workerPool), seq(new'.workerMin, _ => new'.workerPool))
  }

  lemma SiteFills(x: Site, st: Status)
    ensures Possible(x, FullPools(x, st), st) && OpenOf(FullPools(x, st)) == CostAt(x, st)
  {
    var old', new' := OldSize(x, st), NewSize(x, st);
    SumOfSame(old'.webMax, old'.webPool);
    SumOfSame(old'.workerMax, old'.workerPool);
    SumOfSame(new'.webMin, new'.webPool);
    SumOfSame(new'.workerMin, new'.workerPool);
  }

  /** What the sites may have open at a moment reaches the sum of their costs, and never passes it. */
  lemma MomentIsExact(sites: seq<Site>, s: seq<Status>, limit: nat)
    requires |s| == |sites|
    ensures Sum(MomentCosts(sites, s)) <= limit <==> forall ps :: AllPossible(sites, ps, s) ==> OpenIn(ps) <= limit
  {
    hide Possible, OpenOf, CostAt, FullPools;
    forall ps | AllPossible(sites, ps, s) ensures OpenIn(ps) <= Sum(MomentCosts(sites, s)) {
      var open := seq(|ps|, i requires 0 <= i < |ps| => OpenOf(ps[i]));
      forall i | 0 <= i < |ps| ensures open[i] <= MomentCosts(sites, s)[i] { SiteWithin(sites[i], ps[i], s[i]); }
      SumAtMost(open, MomentCosts(sites, s));
    }
    var full := seq(|sites|, i requires 0 <= i < |sites| => FullPools(sites[i], s[i]));
    forall i | 0 <= i < |sites|
      ensures Possible(sites[i], full[i], s[i]) && OpenOf(full[i]) == MomentCosts(sites, s)[i]
    {
      SiteFills(sites[i], s[i]);
    }
    assert AllPossible(sites, full, s);
    assert seq(|full|, i requires 0 <= i < |full| => OpenOf(full[i])) == MomentCosts(sites, s);
  }

  // ---- the peak of every wave ----

  /**
   * The most a site can have open while wave `v` rolls: it is done, or yet to come, or in
   * that wave, where it rolls or is done.
   */
  function PeakAt(x: Site, wave: nat, v: nat): nat {
    if wave < v then CostAt(x, Deployed)
    else if wave > v then CostAt(x, Pending)
    else Max(CostAt(x, Rolling), CostAt(x, Deployed))
  }

  function PeakCosts(sites: seq<Site>, c: nat, v: nat): (costs: seq<nat>)
    requires c > 0
    ensures |costs| == |sites|
  {
    seq(|sites|, i requires 0 <= i < |sites| => PeakAt(sites[i], WaveOf(i, c), v))
  }

  function Peak(sites: seq<Site>, c: nat, v: nat): nat
    requires c > 0
  {
    Sum(PeakCosts(sites, c, v))
  }

  /** The wave a deploy has come to: that of the last site under way. */
  function Front(s: seq<Status>, c: nat): nat
    requires c > 0
  {
    if s == [] then 0 else if !s[|s| - 1].Pending? then WaveOf(|s| - 1, c) else Front(s[..|s| - 1], c)
  }

  lemma {:induction false} FrontMeans(s: seq<Status>, c: nat)
    requires c > 0 && InOrder(s, c)
    ensures forall i :: 0 <= i < |s| && WaveOf(i, c) > Front(s, c) ==> s[i].Pending?
    ensures forall i :: 0 <= i < |s| && WaveOf(i, c) < Front(s, c) ==> s[i].Deployed?
    ensures s != [] ==> Front(s, c) <= WaveOf(|s| - 1, c)
  {
    if s != [] {
      var n := |s| - 1;
      if s[n].Pending? {
        assert InOrder(s[..n], c) by {
          forall i, j | 0 <= i < n && 0 <= j < n && WaveOf(i, c) > WaveOf(j, c) && !s[..n][i].Pending?
            ensures s[..n][j].Deployed?
          {
            assert s[i] == s[..n][i] && s[j] == s[..n][j];
          }
        }
        FrontMeans(s[..n], c);
        assert forall i :: 0 <= i < n ==> s[..n][i] == s[i];
        if n > 0 { WavesGrow(n - 1, n, c); }
      } else {
        forall i | 0 <= i < |s| ensures WaveOf(i, c) <= WaveOf(n, c) { WavesGrow(i, n, c); }
      }
    }
  }

  lemma MomentWithinPeak(sites: seq<Site>, s: seq<Status>, c: nat)
    requires c > 0 && |s| == |sites| && InOrder(s, c)
    ensures Sum(MomentCosts(sites, s)) <= Peak(sites, c, Front(s, c))
  {
    FrontMeans(s, c);
    hide WaveOf, CostAt, Front;
    forall i | 0 <= i < |s| ensures MomentCosts(sites, s)[i] <= PeakCosts(sites, c, Front(s, c))[i] {
      if WaveOf(i, c) == Front(s, c) && s[i].Pending? { PendingCostsLess(sites[i]); }
    }
    SumAtMost(MomentCosts(sites, s), PeakCosts(sites, c, Front(s, c)));
  }

  lemma PendingCostsLess(x: Site)
    ensures CostAt(x, Pending) <= CostAt(x, Rolling)
  {
  }

  /** The moment at which wave `v` costs most. */
  function AtPeak(sites: seq<Site>, c: nat, v: nat): (s: seq<Status>)
    requires c > 0
    ensures |s| == |sites|
  {
    seq(|sites|, i requires 0 <= i < |sites| =>
      if WaveOf(i, c) < v then Deployed
      else if WaveOf(i, c) > v then Pending
      else if CostAt(sites[i], Rolling) >= CostAt(sites[i], Deployed) then Rolling
      else Deployed)
  }

  lemma PeakIsReached(sites: seq<Site>, c: nat, v: nat)
    requires c > 0
    ensures InOrder(AtPeak(sites, c, v), c) && Sum(MomentCosts(sites, AtPeak(sites, c, v))) == Peak(sites, c, v)
  {
    hide CostAt;
    assert MomentCosts(sites, AtPeak(sites, c, v)) == PeakCosts(sites, c, v);
  }

  /** At every moment of every deploy, whatever the tasks have open, the connections are within `limit`. */
  ghost predicate StaysWithin(sites: seq<Site>, c: nat, limit: nat)
    requires c > 0
  {
    forall acts, ps :: Deploy(|sites|, acts, c).Some? && AllPossible(sites, ps, Deploy(|sites|, acts, c).value) ==>
      OpenIn(ps) <= limit
  }

  ghost predicate PeaksWithin(sites: seq<Site>, c: nat, limit: nat)
    requires c > 0
  {
    forall v: nat :: Peak(sites, c, v) <= limit
  }

  /**
   * Exactly when a deploy stays within a limit: when the peak of every wave does, counting the
   * sites already deployed under their new settings, those still to come under their old ones,
   * and those of the wave under whichever costs more, rolling or done.
   */
  lemma DeployStaysWithin(sites: seq<Site>, c: nat, limit: nat)
    requires c > 0
    ensures StaysWithin(sites, c, limit) <==> PeaksWithin(sites, c, limit)
  {
    hide Peak, MomentCosts, AtPeak, AllPossible, OpenIn, Front, Deploy, InOrder;
    if PeaksWithin(sites, c, limit) {
      forall acts, ps | Deploy(|sites|, acts, c).Some? && AllPossible(sites, ps, Deploy(|sites|, acts, c).value)
        ensures OpenIn(ps) <= limit
      {
        var s := Deploy(|sites|, acts, c).value;
        DeployInOrder(|sites|, acts, c);
        MomentWithinPeak(sites, s, c);
        assert Peak(sites, c, Front(s, c)) <= limit;
        MomentIsExact(sites, s, limit);
      }
    }
    if StaysWithin(sites, c, limit) {
      forall v: nat ensures Peak(sites, c, v) <= limit {
        var s := AtPeak(sites, c, v);
        PeakIsReached(sites, c, v);
        var acts := OrderIsReached(s, |s|, c);
        assert UpTo(s, |s|) == s;
        MomentIsExact(sites, s, limit);
      }
    }
  }

  // ---- what the budget promises ----

  lemma {:induction false} SumSplits(x: seq<nat>, a: seq<nat>, b: seq<nat>, mask: seq<bool>)
    requires |x| == |a| == |b| == |mask|
    requires forall i :: 0 <= i < |x| ==> x[i] <= a[i] + if mask[i] then b[i] else 0
    ensures Sum(x) <= Sum(a) + SumWhere(b, mask)
  {
    if x != [] { SumSplits(x[1..], a[1..], b[1..], mask[1..]); }
  }

  /** No site runs larger before the deploy than after it. */
  predicate NoneShrinks(sites: seq<Site>) {
    forall x :: x in sites ==> CostAt(x, Pending) <= SteadyOf(x.after)
  }

  lemma PeakWithinWorstCase(sites: seq<Site>, c: nat, v: nat)
    requires c > 0 && sites != [] && NoneShrinks(sites)
    ensures Peak(sites, c, v) <= WorstCase(Afters(sites), c)
  {
    var sizes := Afters(sites);
    var mask := seq(|sites|, i requires 0 <= i < |sites| => WaveOf(i, c) == v);
    OneWaveCounts(sizes, mask, v, c);
    DearestBound(RollCosts(sizes), mask, RollingSites(sizes, c));
    hide WaveOf;
    forall i | 0 <= i < |sites|
      ensures PeakCosts(sites, c, v)[i] <= SteadyCosts(sizes)[i] + if mask[i] then RollCosts(sizes)[i] else 0
    {
      assert sites[i] in sites;
    }
    SumSplits(PeakCosts(sites, c, v), SteadyCosts(sizes), RollCosts(sizes), mask);
  }

  /** Where no site shrinks, the worst case of what is deployed bounds every moment of its deploy. */
  lemma NeverExceeds(sites: seq<Site>, c: nat)
    requires c > 0 && sites != [] && NoneShrinks(sites)
    ensures StaysWithin(sites, c, WorstCase(Afters(sites), c))
  {
    forall v: nat ensures Peak(sites, c, v) <= WorstCase(Afters(sites), c) { PeakWithinWorstCase(sites, c, v); }
    DeployStaysWithin(sites, c, WorstCase(Afters(sites), c));
  }

  /**
   * An accepted environment never opens more connections than the database allows, exactly
   * when the peaks of its waves are within that too; which they are where no site shrinks.
   */
  lemma AcceptedNeverExceeds(sites: seq<Site>, c: nat, maxConnections: nat)
    requires c > 0 && sites != [] && !Judge(WorstCase(Afters(sites), c), maxConnections).Rejected?
    ensures StaysWithin(sites, c, maxConnections) <==> PeaksWithin(sites, c, maxConnections)
    ensures NoneShrinks(sites) ==> StaysWithin(sites, c, maxConnections)
  {
    DeployStaysWithin(sites, c, maxConnections);
    if NoneShrinks(sites) {
      forall v: nat ensures Peak(sites, c, v) <= maxConnections { PeakWithinWorstCase(sites, c, v); }
    }
  }

  /** Where every site is new or keeps its settings, none shrinks: such a deploy, once accepted, stays within the maximum. */
  lemma UnchangedStaysWithin(sites: seq<Site>, c: nat, maxConnections: nat)
    requires c > 0 && sites != [] && WorstCase(Afters(sites), c) <= maxConnections
    requires forall x :: x in sites ==> x.before.None? || x.before == Some(x.after)
    ensures StaysWithin(sites, c, maxConnections)
  {
    UnchangedNeverShrinks(sites);
    hide *;
    JudgedByHeadroom(WorstCase(Afters(sites), c), maxConnections);
    AcceptedNeverExceeds(sites, c, maxConnections);
  }

  lemma UnchangedNeverShrinks(sites: seq<Site>)
    requires forall x :: x in sites ==> x.before.None? || x.before == Some(x.after)
    ensures NoneShrinks(sites)
  {
    forall x | x in sites ensures CostAt(x, Pending) <= SteadyOf(x.after) {}
  }

  /** The sum of the few dearest is no more than as many times a cost none passes. */
  lemma WorstCaseAtMost(sizes: seq<Size>, c: nat, most: nat)
    requires c > 0 && sizes != [] && forall x :: x in RollCosts(sizes) ==> x <= most
    ensures WorstCase(sizes, c) <= Steady(sizes) + most * c
  {
    var costs := SortDescending(RollCosts(sizes));
    WavesMean(sizes, c);
    MaxLengthWithin(Waves(sizes, c), c);
    TopGrows(costs, RollingSites(sizes, c), c);
    SortSorts(RollCosts(sizes));
    var few := costs[..Min(c, |costs|)];
    forall x | x in few ensures x <= most {
      assert x in costs && x in multiset(costs) && x in multiset(RollCosts(sizes)) && x in RollCosts(sizes);
    }
    SumWithin(few, c, most);
  }

  const LARGE := Size(20, 10, 1, 10, 1, 5)
  const LOWERED := Size(5, 5, 1, 10, 1, 5)
  const CANARY := Size(20, 10, 1, 20, 1, 5)

  /** A new site first, and three whose pools are lowered behind it. */
  const LOWERING: seq<Site> :=
    [Site(None, CANARY), Site(Some(LARGE), LOWERED), Site(Some(LARGE), LOWERED), Site(Some(LARGE), LOWERED)]

  lemma SumOfFour(s: seq<nat>, a: nat, b: nat, c: nat, d: nat)
    requires s == [a, b, c, d]
    ensures Sum(s) == a + b + c + d
  {
    assert s[1..] == [b, c, d] && s[1..][1..] == [c, d] && s[1..][1..][1..] == [d] && s[1..][1..][1..][1..] == [];
    assert Sum(s[1..][1..][1..]) == d && Sum(s[1..][1..]) == c + d;
  }

  /** The three as they were fit the database. */
  lemma BeforeFits()
    ensures WorstCase([LARGE, LARGE, LARGE], 2) <= 810
  {
    var sizes := [LARGE, LARGE, LARGE];
    assert SteadyCosts(sizes) == [250, 250, 250] && RollCosts(sizes) == [30, 30, 30];
    WorstCaseAtMost(sizes, 2, 30);
    var s: seq<nat> := [250, 250, 250];
    assert s[1..] == [250, 250] && s[1..][1..] == [250] && s[1..][1..][1..] == [];
  }

  lemma AfterFits()
    ensures WorstCase(Afters(LOWERING), 2) <= 735
  {
    var sizes := Afters(LOWERING);
    assert sizes == [CANARY, LOWERED, LOWERED, LOWERED];
    assert SteadyCosts(sizes) == [450, 75, 75, 75] && RollCosts(sizes) == [30, 10, 10, 10];
    WorstCaseAtMost(sizes, 2, 30);
    SumOfFour(SteadyCosts(sizes), 450, 75, 75, 75);
  }

  lemma CanaryPeaks()
    ensures Peak(LOWERING, 2, 0) == 1200
  {
    assert PeakCosts(LOWERING, 2, 0) == [450, 250, 250, 250];
    SumOfFour(PeakCosts(LOWERING, 2, 0), 450, 250, 250, 250);
  }

  /**
   * Lowering pools makes room that is not there yet. Three sites fit a database of 823
   * connections, and so do a new site and the three with lower pools; but the new one is done
   * before the three have begun, and 1200 connections may be open.
   */
  lemma LoweringPoolsExceeds()
    ensures ConnectionLimits.Connections(ConnectionLimits.Aurora(1.0, 4.0)) == 823
    ensures !Judge(WorstCase([LARGE, LARGE, LARGE], 2), 823).Rejected?
    ensures !Judge(WorstCase(Afters(LOWERING), 2), 823).Rejected?
    ensures !StaysWithin(LOWERING, 2, 823) && !StaysWithin(LOWERING, 2, 1199)
  {
    BeforeFits();
    AfterFits();
    CanaryPeaks();
    hide Peak, StaysWithin, WorstCase, Afters;
    assert !PeaksWithin(LOWERING, 2, 823) && !PeaksWithin(LOWERING, 2, 1199);
    DeployStaysWithin(LOWERING, 2, 823);
    DeployStaysWithin(LOWERING, 2, 1199);
  }

  // ---- how many may roll ----

  /** Counts down from the configured concurrency to the first that fits under `limit`, 0 if none does. */
  method FittingConcurrency(sizes: seq<Size>, c: nat, limit: real) returns (count: nat)
    requires c > 0
    ensures count <= RollingSites(sizes, c)
    ensures count > 0 ==> (Steady(sizes) + RollingFor(sizes, count)) as real <= limit
    ensures forall n: nat :: count < n <= RollingSites(sizes, c) ==> (Steady(sizes) + RollingFor(sizes, n)) as real > limit
  {
    count := 0;
    var rollingSites := RollingSites(sizes, c);
    while count < rollingSites && (Steady(sizes) + RollingFor(sizes, count + 1)) as real <= limit
      invariant count <= rollingSites
      invariant count > 0 ==> (Steady(sizes) + RollingFor(sizes, count)) as real <= limit
    {
      count := count + 1;
    }
    forall n: nat | count < n <= rollingSites ensures (Steady(sizes) + RollingFor(sizes, n)) as real > limit {
      TopGrows(SortDescending(RollCosts(sizes)), count + 1, n);
    }
  }

  /** Following the advice works: with that many at a time, the worst case is within the limit. */
  lemma AdviceFits(sizes: seq<Size>, count: nat, limit: real)
    requires sizes != [] && count > 0 && (Steady(sizes) + RollingFor(sizes, count)) as real <= limit
    ensures WorstCase(sizes, count) as real <= limit
  {
    WavesMean(sizes, count);
    MaxLengthWithin(Waves(sizes, count), count);
    TopGrows(SortDescending(RollCosts(sizes)), RollingSites(sizes, count), count);
  }
}
