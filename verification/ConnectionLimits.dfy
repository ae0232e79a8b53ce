/**
 * How many connections the shared database is taken to allow, and what raising its capacity
 * can do for a budget that does not fit. Capacities are in ACUs.
 */
module ConnectionLimits {
  type Anchor = (real, nat)

  /** The documented maxima by maximum capacity; between them the estimate is interpolated. */
  const ANCHORS: seq<Anchor> := [(1.0, 189), (4.0, 823), (8.0, 1669), (16.0, 3360), (32.0, 5000)]

  const CEILING: nat := 5000

  const CAP: nat := 2000

  predicate Rising(anchors: seq<Anchor>) {
    forall i, j :: 0 <= i < j < |anchors| ==> anchors[i].0 < anchors[j].0 && anchors[i].1 <= anchors[j].1
  }

  function Between(a: Anchor, b: Anchor, acu: real): real
    requires a.0 < b.0
  {
    a.1 as real + Share((b.1 - a.1) as real, acu - a.0, b.0 - a.0)
  }

  function Share(k: real, x: real, d: real): real
    requires d > 0.0
  {
    k * x / d
  }

  function Interpolate(anchors: seq<Anchor>, acu: real): int
    requires |anchors| > 1 && Rising(anchors)
  {
    if |anchors| == 2 || acu <= anchors[1].0 then Between(anchors[0], anchors[1], acu).Floor
    else
      assert Rising(anchors[1..]);
      Interpolate(anchors[1..], acu)
  }

  function Uncapped(maxAcu: real): int {
    if maxAcu <= 1.0 then (189.0 * maxAcu).Floor
    else if maxAcu >= 32.0 then CEILING
    else Interpolate(ANCHORS, maxAcu)
  }

  datatype Aurora = Aurora(minAcu: real, maxAcu: real)

  /** A minimum of 0 or 0.5 caps the connections, whatever the maximum. */
  function Connections(db: Aurora): int {
    if db.minAcu <= 0.5 && Uncapped(db.maxAcu) > CAP then CAP else Uncapped(db.maxAcu)
  }

  // ---- the estimate ----

  lemma ProductRises(k: real, x: real, y: real)
    requires k >= 0.0 && x <= y
    ensures k * x <= k * y
  {
  }

  lemma QuotientRises(p: real, q: real, d: real)
    requires p <= q && d > 0.0
    ensures p / d <= q / d
  {
  }

  lemma ShareRises(k: real, x: real, y: real, d: real)
    requires k >= 0.0 && 0.0 <= x <= y <= d && d > 0.0
    ensures 0.0 <= Share(k, x, d) <= Share(k, y, d) <= k
  {
    ProductRises(k, 0.0, x);
    ProductRises(k, x, y);
    ProductRises(k, y, d);
    QuotientRises(0.0, k * x, d);
    QuotientRises(k * x, k * y, d);
    QuotientRises(k * y, k * d, d);
  }

  lemma BetweenRises(a: Anchor, b: Anchor, x: real, y: real)
    requires a.0 < b.0 && a.1 <= b.1 && a.0 <= x <= y <= b.0
    ensures a.1 as real <= Between(a, b, x) <= Between(a, b, y) <= b.1 as real
  {
    hide Share;
    ShareRises((b.1 - a.1) as real, x - a.0, y - a.0, b.0 - a.0);
  }

  lemma {:induction false} InterpolateRises(anchors: seq<Anchor>, x: real, y: real)
    requires |anchors| > 1 && Rising(anchors) && anchors[0].0 <= x <= y <= anchors[|anchors| - 1].0
    ensures anchors[0].1 <= Interpolate(anchors, x) <= Interpolate(anchors, y) <= anchors[|anchors| - 1].1
  {
    var a, b := anchors[0], anchors[1];
    if |anchors| == 2 || y <= b.0 {
      BetweenRises(a, b, x, y);
    } else if x <= b.0 {
      BetweenRises(a, b, x, b.0);
      InterpolateRises(anchors[1..], b.0, y);
    } else {
      InterpolateRises(anchors[1..], x, y);
    }
  }

  lemma AnchorsRise()
    ensures Rising(ANCHORS)
  {
  }

  /** More capacity never means fewer connections, and never more than the ceiling. */
  lemma CapacityRises(x: real, y: real)
    requires 0.0 <= x <= y
    ensures 0 <= Uncapped(x) <= Uncapped(y) <= CEILING
  {
    AnchorsRise();
    hide Interpolate;
    if 1.0 < x < 32.0 { InterpolateRises(ANCHORS, 1.0, x); InterpolateRises(ANCHORS, x, x); }
    if 1.0 < y < 32.0 { InterpolateRises(ANCHORS, 1.0, y); InterpolateRises(ANCHORS, y, y); }
    if 1.0 < x && y < 32.0 { InterpolateRises(ANCHORS, x, y); }
  }

  /** On the line from one anchor to the next, cut to a whole number. */
  predicate OnLine(a: Anchor, b: Anchor, x: real, v: int) {
    var width, at := b.0 - a.0, a.1 as real * (b.0 - a.0) + (b.1 - a.1) as real * (x - a.0);
    v as real * width <= at < (v + 1) as real * width
  }

  lemma CutProduct(r: real, d: real)
    requires d > 0.0
    ensures r.Floor as real * d <= r * d < (r.Floor + 1) as real * d
  {
    ProductRises(d, r.Floor as real, r);
    var above := (r.Floor + 1) as real - r;
    ProductIsPositive(above, d);
    assert above * d == (r.Floor + 1) as real * d - r * d;
  }

  lemma QuotientUndone(p: real, d: real)
    requires d > 0.0
    ensures p / d * d == p
  {
  }

  lemma Distributes(c: real, q: real, d: real)
    ensures (c + q) * d == c * d + q * d
  {
  }

  lemma CutQuotient(c: real, k: real, x: real, d: real, v: int, above: real)
    requires d > 0.0 && v == (c + Share(k, x, d)).Floor && above == (v + 1) as real
    ensures v as real * d <= c * d + k * x < above * d
  {
    var q := Share(k, x, d);
    assert q * d == k * x by { QuotientUndone(k * x, d); }
    hide Share;
    CutProduct(c + q, d);
    Distributes(c, q, d);
    var p := (c + q) * d;
    assert p == c * d + k * x && v as real * d <= p && p < above * d;
  }

  lemma ProductIsPositive(x: real, d: real)
    requires x > 0.0 && d > 0.0
    ensures x * d > 0.0
  {
  }

  lemma {:induction false} InterpolatesOnLine(anchors: seq<Anchor>, i: nat, x: real)
    requires i + 1 < |anchors| && Rising(anchors) && anchors[i].0 < x <= anchors[i + 1].0
    ensures OnLine(anchors[i], anchors[i + 1], x, Interpolate(anchors, x))
  {
    if i == 0 {
      var a, b := anchors[0], anchors[1];
      var v := Interpolate(anchors, x);
      CutQuotient(a.1 as real, (b.1 - a.1) as real, x - a.0, b.0 - a.0, v, (v + 1) as real);
    } else {
      InterpolatesOnLine(anchors[1..], i - 1, x);
    }
  }

  /** The estimate at any capacity: on the line between the documented maxima around it, and in proportion below the first. */
  lemma EstimateIs(x: real, i: nat)
    requires x >= 0.0
    ensures x <= 1.0 ==> Uncapped(x) as real <= 189.0 * x < (Uncapped(x) + 1) as real
    ensures x >= 32.0 ==> Uncapped(x) == 5000
    ensures i < 4 && ANCHORS[i].0 < x <= ANCHORS[i + 1].0 ==> OnLine(ANCHORS[i], ANCHORS[i + 1], x, Uncapped(x))
  {
    AnchorsRise();
    if i < 4 && ANCHORS[i].0 < x <= ANCHORS[i + 1].0 {
      assert 1.0 < x;
      if x < 32.0 {
        InterpolatesOnLine(ANCHORS, i, x);
      } else {
        assert i == 3 && x == 32.0;
      }
    }
  }

  // ---- what is advised ----

  predicate NeedsMinAcu(db: Aurora, required: int) { db.minAcu <= 0.5 && required > CAP }

  predicate NeedsMaxAcu(db: Aurora, required: int) { required > Uncapped(db.maxAcu) }

  /** The database with the advised settings raised and the others left as they are. */
  predicate Follows(db: Aurora, required: int, raised: Aurora) {
    && (if NeedsMinAcu(db, required) then raised.minAcu >= 1.0 else raised.minAcu == db.minAcu)
    && (if NeedsMaxAcu(db, required) then raised.maxAcu >= 32.0 else raised.maxAcu == db.maxAcu)
  }

  /**
   * Where a budget does not fit and some capacity would let it: the advice names a setting,
   * raising all it names is enough, and leaving any it names as it is never is.
   */
  lemma AdviceSuffices(db: Aurora, required: int, raised: Aurora)
    requires db.minAcu >= 0.0 && db.maxAcu >= 0.0 && Connections(db) < required <= CEILING
    ensures NeedsMinAcu(db, required) || NeedsMaxAcu(db, required)
    ensures Follows(db, required, raised) ==> Connections(raised) >= required
    ensures NeedsMinAcu(db, required) && raised.minAcu == db.minAcu ==> Connections(raised) < required
    ensures NeedsMaxAcu(db, required) && raised.maxAcu == db.maxAcu ==> Connections(raised) < required
  {
    CapacityRises(db.maxAcu, db.maxAcu);
  }
}
