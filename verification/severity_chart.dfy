/** The severity bar of the results page: three coloured segments whose
    widths are the rounded shares of the total, each drawn only for a
    non-zero count and labelled only when wide enough. Counts are
    non-negative; the share is computed exactly and rounded half up, as
    `Math.round` does. */
module SeverityChart {
  import opened Wrappers

  datatype Counts = Counts(high: nat, medium: nat, low: nat)

  function Total(c: Counts): nat
  {
    c.high + c.medium + c.low
  }

  /** `Math.round((count / total) * 100) || 0`. With a zero total the share
      is NaN, which `|| 0` turns into 0; otherwise the result is the whole
      number nearest to 100·count/total, halves rounded up. */
  function Percent(count: nat, total: nat): (p: nat)
    ensures total == 0 ==> p == 0
    ensures total > 0 ==> 2 * total * p <= 200 * count + total < 2 * total * p + 2 * total
    ensures count <= total ==> p <= 100
  {
    if total == 0 then 0
    else
      var p := (200 * count + total) / (2 * total);
      PercentBound(count, total, p);
      p
  }

  lemma PercentBound(count: nat, total: nat, p: nat)
    requires total > 0 && p == (200 * count + total) / (2 * total)
    ensures 2 * total * p <= 200 * count + total < 2 * total * p + 2 * total
    ensures count <= total ==> p <= 100
  {
    var r := (200 * count + total) % (2 * total);
    assert 200 * count + total == 2 * total * p + r;
    MulLess(2 * total, p, 101);
    assert 2 * total * 101 == 202 * total;
  }

  /** Multiplying by a positive factor keeps strict order, both ways. */
  lemma MulLess(t: int, a: int, b: int)
    requires t > 0
    ensures a < b <==> t * a < t * b
  {
    assert t * b - t * a == t * (b - a);
    if a < b {
      MulPositive(t, b - a);
    } else {
      MulNonPositive(t, b - a);
    }
  }

  lemma MulPositive(t: int, d: int)
    requires t > 0 && d > 0
    ensures t * d > 0
  {
  }

  lemma MulNonPositive(t: int, d: int)
    requires t > 0 && d <= 0
    ensures t * d <= 0
  {
  }

  /** A segment: its colour, its width in percent and the count written on
      it, if any. */
  datatype Segment = Segment(color: string, width: nat, caption: Option<nat>)

  /** One segment: absent for a zero count, labelled above 10 percent. */
  function SegmentFor(color: string, count: nat, total: nat): (s: Option<Segment>)
    ensures s.Some? <==> count > 0
    ensures s.Some? ==> s.value.color == color && s.value.width == Percent(count, total)
    ensures s.Some? ==> (s.value.caption.Some? <==> Percent(count, total) > 10)
    ensures s.Some? && s.value.caption.Some? ==> s.value.caption.value == count
  {
    if count == 0 then None
    else
      var p := Percent(count, total);
      Some(Segment(color, p, if p > 10 then Some(count) else None))
  }

  function Present(s: Option<Segment>): seq<Segment>
  {
    if s.Some? then [s.value] else []
  }

  /** The bar: red, yellow and green segments in that order. */
  function Bar(c: Counts): (bar: seq<Segment>)
    ensures |bar| <= 3
  {
    var t := Total(c);
    Present(SegmentFor("bg-red-500", c.high, t))
    + Present(SegmentFor("bg-yellow-500", c.medium, t))
    + Present(SegmentFor("bg-green-500", c.low, t))
  }

  /** The bar has one segment per non-zero count, so an empty result draws
      an empty bar. */
  lemma BarSegments(c: Counts)
    ensures |Bar(c)| == (if c.high > 0 then 1 else 0) + (if c.medium > 0 then 1 else 0) + (if c.low > 0 then 1 else 0)
    ensures Total(c) == 0 <==> Bar(c) == []
  {
  }

  /** Every segment's width is a share of at most 100 percent. */
  lemma WidthsBounded(c: Counts)
    ensures forall i :: 0 <= i < |Bar(c)| ==> Bar(c)[i].width <= 100
  {
    var t := Total(c);
    assert Percent(c.high, t) <= 100 && Percent(c.medium, t) <= 100 && Percent(c.low, t) <= 100;
  }

  /** With a non-zero total each rounding is off by at most a half, so the
      three widths add up to 99, 100 or 101 percent. */
  lemma WidthsSumNearHundred(c: Counts)
    requires Total(c) > 0
    ensures 99 <= Percent(c.high, Total(c)) + Percent(c.medium, Total(c)) + Percent(c.low, Total(c)) <= 101
  {
    var t := Total(c);
    var x, y, z := Percent(c.high, t), Percent(c.medium, t), Percent(c.low, t);
    var k := 2 * t;
    var d := x + y + z - 100;
    assert -t < k * x - 200 * c.high <= t;
    assert -t < k * y - 200 * c.medium <= t;
    assert -t < k * z - 200 * c.low <= t;
    Distribute(k, x, y, z);
    assert -3 * t < k * d <= 3 * t;
    MulLess(k, d, 2);
    MulLess(k, -2, d);
  }

  lemma Distribute(k: int, x: int, y: int, z: int)
    ensures k * (x + y + z - 100) == k * x + k * y + k * z - 100 * k
  {
  }

  /** Both ends occur: one each of high and medium with six lows rounds to
      13 + 13 + 75 = 101 percent, and one of each to 33 + 33 + 33 = 99. */
  lemma WidthsSumExtremes()
    ensures var c := Counts(1, 1, 6);
      Percent(c.high, Total(c)) + Percent(c.medium, Total(c)) + Percent(c.low, Total(c)) == 101
    ensures var c := Counts(1, 1, 1);
      Percent(c.high, Total(c)) + Percent(c.medium, Total(c)) + Percent(c.low, Total(c)) == 99
  {
    assert Percent(1, 8) == 13 && Percent(6, 8) == 75;
    assert Percent(1, 3) == 33;
  }
}
