/**
 Outbound media: the throttled upload progress of `progressReader` and the
 nearest-neighbour thumbnail of `nearestDownscale`.
 */
module MediaSend {

  // ------------------------------------------------------------ upload progress

  const STEP: int := 5

  /** Percent of `total` bytes that `read` bytes make up, capped at 100. */
  function Percent(read: int, total: int): (pct: int)
    requires total > 0 && read >= 0
    ensures 0 <= pct <= 100
  {
    var pct := read * 100 / total;
    if pct > 100 then 100 else pct
  }

  lemma PercentGrows(read: int, more: int, total: int)
    requires total > 0 && 0 <= read <= more
    ensures Percent(read, total) <= Percent(more, total)
  {
    DivGrows(read * 100, more * 100, total);
  }

  lemma MulGrows(d: int, x: int, y: int)
    requires d >= 0 && x <= y
    ensures d * x <= d * y
  {
    assert d * y - d * x == d * (y - x);
  }

  /** A quotient is below `k` exactly when the dividend is below `k` divisors. */
  lemma QuotientBelow(a: int, d: int, k: int)
    requires d > 0
    ensures a / d < k <==> a < d * k
  {
    var q := a / d;
    assert d * q <= a < d * q + d;
    if q < k {
      MulGrows(d, q + 1, k);
    } else {
      MulGrows(d, k, q);
    }
  }

  lemma DivGrows(a: int, b: int, d: int)
    requires d > 0 && a <= b
    ensures a / d <= b / d
  {
    QuotientBelow(a, d, b / d + 1);
    QuotientBelow(b, d, b / d + 1);
  }

  /** From the last byte on the percentage is 100. */
  lemma FullIsHundred(read: int, total: int)
    requires total > 0 && read >= 0
    ensures read >= total ==> read * 100 / total >= 100
    ensures read < total ==> read * 100 / total < 100
  {
    QuotientBelow(read * 100, total, 100);
  }

  /** What a listener may rely on for the events of one upload. */
  predicate GoodProgress(events: seq<int>, success: bool) {
    && 1 <= |events| <= 21
    && events[0] == 0
    && (forall i :: 0 <= i < |events| ==> 0 <= events[i] <= 100)
    && (forall i :: 0 < i < |events| ==> events[i - 1] < events[i])
    && (forall i :: 0 < i < |events| - 1 ==> events[i - 1] + STEP <= events[i])
    && (success ==> events[|events| - 1] == 100)
    && (!success && |events| > 1 ==> events[|events| - 2] + STEP <= events[|events| - 1])
  }

  /** Events that all rise by at least STEP and end at `last`. */
  predicate Throttled(events: seq<int>, last: int) {
    && |events| > 0
    && events[0] == 0
    && events[|events| - 1] == last <= 100
    && forall i :: 0 < i < |events| ==> events[i - 1] + STEP <= events[i]
  }

  lemma {:induction false} ThrottledClimbs(events: seq<int>, last: int, i: nat)
    requires Throttled(events, last) && i < |events|
    ensures STEP * i <= events[i] <= last - STEP * (|events| - 1 - i)
    decreases |events| - i
  {
    ThrottledFromBelow(events, last, i);
    if i < |events| - 1 {
      ThrottledClimbs(events, last, i + 1);
    }
  }

  lemma {:induction false} ThrottledFromBelow(events: seq<int>, last: int, i: nat)
    requires Throttled(events, last) && i < |events|
    ensures STEP * i <= events[i]
  {
    if i > 0 {
      ThrottledFromBelow(events, last, i - 1);
    }
  }

  lemma ThrottledIsGood(events: seq<int>, last: int)
    requires Throttled(events, last)
    ensures GoodProgress(events, false)
    ensures last < 100 ==> GoodProgress(events + [100], true)
    ensures last == 100 ==> GoodProgress(events, true)
  {
    forall i | 0 <= i < |events| ensures 0 <= events[i] <= last {
      ThrottledClimbs(events, last, i);
    }
    ThrottledClimbs(events, last, |events| - 1);
  }

  /** `events` is what `emit` has been called with, the initial 0 included. */
  class ProgressReader {
    const total: int
    var read: int
    var lastPct: int
    var events: seq<int>

    ghost predicate Valid()
      reads this
    {
      && read >= 0
      && lastPct >= 0
      && Throttled(events, lastPct)
      && (total > 0 ==> lastPct <= Percent(read, total) < lastPct + STEP)
    }

    /** MediaSend emits 0 before it builds the reader. */
    constructor (total: int)
      ensures Valid() && this.total == total && read == 0 && events == [0]
    {
      this.total := total;
      read, lastPct := 0, 0;
      events := [0];
    }

    /** One Read of the wrapped reader that delivered `n` bytes. */
    method Read(n: nat)
      requires Valid()
      modifies this
      ensures Valid() && read == old(read) + n
      ensures old(events) <= events && |events| <= old(|events|) + 1
      ensures total <= 0 ==> events == old(events)
      ensures total > 0 ==>
        var pct := if read >= total then 100 else read * 100 / total;
        events == if pct >= old(lastPct) + 5 then old(events) + [pct] else old(events)
    {
      read := read + n;
      if total > 0 {
        PercentGrows(old(read), read, total);
        FullIsHundred(read, total);
        var pct := read * 100 / total;
        if pct > 100 {
          pct := 100;
        }
        if pct >= lastPct + STEP {
          lastPct := pct;
          events := events + [pct];
        }
      }
    }

    /** The final percent, reported only when it is news. */
    method Force(pct: int)
      requires Valid()
      modifies this
      ensures events == if old(lastPct) < pct then old(events) + [pct] else old(events)
      ensures read == old(read)
      ensures pct == 100 ==> GoodProgress(events, true)
    {
      ThrottledIsGood(events, lastPct);
      if lastPct < pct {
        lastPct := pct;
        events := events + [pct];
      }
    }
  }

  /** The events of one upload: `chunks` are the bytes delivered by the successive reads. */
  method Upload(total: int, chunks: seq<nat>, success: bool) returns (events: seq<int>)
    ensures GoodProgress(events, success)
  {
    var progress := new ProgressReader(total);
    for i := 0 to |chunks|
      invariant progress.Valid()
    {
      progress.Read(chunks[i]);
    }
    ThrottledIsGood(progress.events, progress.lastPct);
    if success {
      progress.Force(100);
    }
    return progress.events;
  }

  // ----------------------------------------------------------------- thumbnails

  type Pixel = int

  datatype Bounds = Bounds(minX: int, minY: int, width: int, height: int)

  function Longest(b: Bounds): int { if b.height > b.width then b.height else b.width }

  predicate Shrinks(b: Bounds, max: int) { b.width > 0 && b.height > 0 && (b.width > max || b.height > max) }

  /** A side of the thumbnail: scaled by max/long, at least 1. */
  function Side(side: int, max: int, long: int): int
    requires long > 0
  {
    var d := side * max / long;
    if d < 1 then 1 else d
  }

  /** The source row or column that row or column `i` of `n` samples. */
  function Sample(i: int, side: int, n: int): int
    requires n > 0
  {
    i * side / n
  }

  /** The source pixel for position (x, y) of a thumbnail of `dw` by `dh`. */
  function Sampled(b: Bounds, at: (int, int) -> Pixel, x: int, y: int, dw: int, dh: int): Pixel
    requires dw > 0 && dh > 0
  {
    at(b.minX + Sample(x, b.width, dw), b.minY + Sample(y, b.height, dh))
  }

  /** `at` is the pixel function of the source image; `same` means it is returned as is. */
  method NearestDownscale(b: Bounds, at: (int, int) -> Pixel, max: int) returns (same: bool, dst: array2<Pixel>)
    requires max >= 1
    ensures same <==> b.width <= 0 || b.height <= 0 || (b.width <= max && b.height <= max)
    ensures same <==> !Shrinks(b, max)
    ensures !same ==> dst.Length0 == Side(b.width, max, Longest(b)) && dst.Length1 == Side(b.height, max, Longest(b))
    ensures !same ==> forall x, y :: 0 <= x < dst.Length0 && 0 <= y < dst.Length1 ==>
      dst[x, y] == Sampled(b, at, x, y, dst.Length0, dst.Length1)
  {
    var sw, sh := b.width, b.height;
    if sw <= 0 || sh <= 0 || (sw <= max && sh <= max) {
      dst := new Pixel[0, 0];
      return true, dst;
    }
    same := false;
    var long := sw;
    if sh > long {
      long := sh;
    }
    var dw, dh := sw * max / long, sh * max / long;
    if dw < 1 {
      dw := 1;
    }
    if dh < 1 {
      dh := 1;
    }
    dst := new Pixel[dw, dh];
    for y := 0 to dh
      invariant forall x, v :: 0 <= x < dw && 0 <= v < y ==> dst[x, v] == Sampled(b, at, x, v, dw, dh)
    {
      var sy := b.minY + y * sh / dh;
      for x := 0 to dw
        invariant forall u, v :: 0 <= u < dw && 0 <= v < y ==> dst[u, v] == Sampled(b, at, u, v, dw, dh)
        invariant forall u :: 0 <= u < x ==> dst[u, y] == Sampled(b, at, u, y, dw, dh)
      {
        var sx := b.minX + x * sw / dw;
        dst[x, y] := at(sx, sy);
      }
    }
  }

  lemma SideBounds(side: int, max: int, long: int)
    requires 1 <= side <= long && 1 <= max <= long
    ensures 1 <= Side(side, max, long) <= side
    ensures Side(side, max, long) <= max
    ensures side == long ==> Side(side, max, long) == max
  {
    MulGrows(side, max, long);
    MulGrows(max, side, long);
    QuotientBelow(side * max, long, side + 1);
    QuotientBelow(side * max, long, max + 1);
    QuotientBelow(side * max, long, max);
  }

  /** When the image shrinks its longest side becomes exactly `max`, and neither side grows,
      vanishes or exceeds `max`. */
  lemma LongestSideIsMax(b: Bounds, max: int)
    requires max >= 1 && Shrinks(b, max)
    ensures var long := Longest(b); var dw, dh := Side(b.width, max, long), Side(b.height, max, long);
      && (if b.height > b.width then dh else dw) == max
      && 1 <= dw <= b.width && 1 <= dh <= b.height && dw <= max && dh <= max
  {
    SideBounds(b.width, max, Longest(b));
    SideBounds(b.height, max, Longest(b));
  }

  lemma SampleInside(i: int, side: int, n: int)
    requires 1 <= n <= side && 0 <= i < n
    ensures 0 <= Sample(i, side, n) < side
  {
    MulGrows(side, 0, i);
    MulGrows(side, i + 1, n);
    QuotientBelow(i * side, n, side);
    QuotientBelow(i * side, n, 0);
  }

  lemma SamplesGrow(i: int, j: int, side: int, n: int)
    requires 1 <= n <= side && 0 <= i < j < n
    ensures Sample(i, side, n) < Sample(j, side, n)
  {
    var q := Sample(i, side, n);
    QuotientBelow(i * side, n, q);
    MulGrows(side, i + 1, j);
    assert n * (q + 1) == n * q + n;
    assert side * (i + 1) == side * i + side;
    QuotientBelow(j * side, n, q + 1);
  }

  /** The sampled pixel is the one whose share of the source begins at or last before that of the
      thumbnail's pixel, in both directions. */
  lemma SampleIsProportional(b: Bounds, at: (int, int) -> Pixel, x: int, y: int, dw: int, dh: int, u: int, v: int)
    requires dw > 0 && dh > 0
    requires dw * u <= x * b.width < dw * (u + 1) && dh * v <= y * b.height < dh * (v + 1)
    ensures Sampled(b, at, x, y, dw, dh) == at(b.minX + u, b.minY + v)
  {
    QuotientBelow(x * b.width, dw, u);
    QuotientBelow(x * b.width, dw, u + 1);
    QuotientBelow(y * b.height, dh, v);
    QuotientBelow(y * b.height, dh, v + 1);
  }

  /** A side of the thumbnail is the scaled one rounded down, but at least 1. */
  lemma SideIsProportional(side: int, max: int, long: int)
    requires 1 <= side && 1 <= max && 1 <= long
    ensures var d := Side(side, max, long);
      side * max < long * (d + 1) && (long * d <= side * max || (d == 1 && side * max < long))
  {
    QuotientBelow(side * max, long, 1);
    var d := Side(side, max, long);
    QuotientBelow(side * max, long, d);
    QuotientBelow(side * max, long, d + 1);
  }

  /** For every thumbnail: each sample lies inside the source, and different columns or rows
      of the thumbnail read different ones of the source, in the same order. */
  lemma SamplesAreInsideAndDistinct(b: Bounds, max: int, i: int, j: int)
    requires max >= 1 && Shrinks(b, max)
    ensures var dw, dh := Side(b.width, max, Longest(b)), Side(b.height, max, Longest(b));
      && (0 <= i < dw ==> 0 <= Sample(i, b.width, dw) < b.width)
      && (0 <= i < dh ==> 0 <= Sample(i, b.height, dh) < b.height)
      && (0 <= i < j < dw ==> Sample(i, b.width, dw) < Sample(j, b.width, dw))
      && (0 <= i < j < dh ==> Sample(i, b.height, dh) < Sample(j, b.height, dh))
  {
    LongestSideIsMax(b, max);
    var dw, dh := Side(b.width, max, Longest(b)), Side(b.height, max, Longest(b));
    if 0 <= i < dw { SampleInside(i, b.width, dw); }
    if 0 <= i < dh { SampleInside(i, b.height, dh); }
    if 0 <= i < j < dw { SamplesGrow(i, j, b.width, dw); }
    if 0 <= i < j < dh { SamplesGrow(i, j, b.height, dh); }
  }
}
