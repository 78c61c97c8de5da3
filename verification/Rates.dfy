/** Counter rates over snapshot pairs, the retention ring, and ratios of rates. */
module Rates {
  import opened Text

  datatype Number = Finite(r: real) | NonFinite

  //-------------------------------------------------------
  // One counter
  //-------------------------------------------------------

  datatype Point = Point(value: Number, at: int)

  datatype Rate =
    | Ok(perSecond: real, intervalMs: int)
    | InsufficientSamples
    | InvalidSample
    | InvalidInterval
    | Reset
    | Gap
    | Absent(reading: string)

  function PerSecond(x: real, intervalMs: int): real
    requires intervalMs > 0
  {
    x / (intervalMs as real / 1000.0)
  }

  function ComputeCounterRate(previous: Option<Point>, current: Option<Point>, maxGapMs: int): Rate
  {
    if previous.None? || current.None? then InsufficientSamples
    else if previous.value.value.NonFinite? || current.value.value.NonFinite? then InvalidSample
    else
      var intervalMs := current.value.at - previous.value.at;
      if intervalMs <= 0 then InvalidInterval
      else if intervalMs > maxGapMs then Gap
      else if current.value.value.r < previous.value.value.r then Reset
      else Ok(PerSecond(current.value.value.r - previous.value.value.r, intervalMs), intervalMs)
  }

  /** What a rate says the counter grew by. */
  function Growth(r: Rate): real
    requires r.Ok?
  {
    r.perSecond * (r.intervalMs as real / 1000.0)
  }

  lemma Multiply(x: real, d: real)
    requires d > 0.0
    ensures x / d * d == x
  {
  }

  lemma RateOk(previous: Point, current: Point, maxGapMs: int)
    ensures var r := ComputeCounterRate(Some(previous), Some(current), maxGapMs);
            r.Ok? ==> previous.value.Finite? && current.value.Finite?
                      && Growth(r) == current.value.r - previous.value.r
                      && r.intervalMs == current.at - previous.at > 0 && r.perSecond >= 0.0
  {
    var r := ComputeCounterRate(Some(previous), Some(current), maxGapMs);
    if r.Ok? {
      var d := r.intervalMs as real / 1000.0;
      Multiply(current.value.r - previous.value.r, d);
      NonNegative(current.value.r - previous.value.r, d);
    }
  }

  /** There is a rate exactly between two finite points, the later one received later but not too late, and not lower. */
  lemma RateExactly(previous: Option<Point>, current: Option<Point>, maxGapMs: int)
    ensures ComputeCounterRate(previous, current, maxGapMs).Ok? <==>
              && previous.Some? && current.Some? && previous.value.value.Finite? && current.value.value.Finite?
              && 0 < current.value.at - previous.value.at <= maxGapMs && previous.value.value.r <= current.value.value.r
    ensures var r := ComputeCounterRate(previous, current, maxGapMs);
            r.Ok? ==>
              && r.intervalMs == current.value.at - previous.value.at
              && r.perSecond * r.intervalMs as real == (current.value.value.r - previous.value.value.r) * 1000.0
  {
    var r := ComputeCounterRate(previous, current, maxGapMs);
    if r.Ok? { PerMs(current.value.value.r - previous.value.value.r, r.intervalMs); }
  }

  lemma PerMs(x: real, intervalMs: int)
    requires intervalMs > 0
    ensures PerSecond(x, intervalMs) * intervalMs as real == x * 1000.0
  {
    var d := intervalMs as real / 1000.0;
    Multiply(x, d);
    assert d * 1000.0 == intervalMs as real;
    Scale(x / d, d, x);
  }

  lemma Scale(q: real, d: real, x: real)
    requires q * d == x
    ensures q * (d * 1000.0) == x * 1000.0
  {
  }

  /** What stands in the way of a rate is told, the first obstacle of four. */
  lemma NoRateBecause(previous: Point, current: Point, maxGapMs: int)
    ensures var r, interval := ComputeCounterRate(Some(previous), Some(current), maxGapMs), current.at - previous.at;
            var finite := previous.value.Finite? && current.value.Finite?;
            && (r.InvalidSample? <==> !finite) && (r.InvalidInterval? <==> finite && interval <= 0)
            && (r.Gap? <==> finite && 0 < interval && maxGapMs < interval)
            && (r.Reset? <==> finite && 0 < interval <= maxGapMs && current.value.r < previous.value.r)
  {
  }

  lemma NonNegative(x: real, d: real)
    requires x >= 0.0 && d > 0.0
    ensures x / d >= 0.0
  {
  }

  function RateAt(points: seq<Point>, k: nat, maxGapMs: int): Rate
    requires 0 < k < |points|
  {
    ComputeCounterRate(Some(points[k - 1]), Some(points[k]), maxGapMs)
  }

  function Integral(points: seq<Point>, n: nat, maxGapMs: int): real
    requires n < |points| && forall k | 0 < k <= n :: RateAt(points, k, maxGapMs).Ok?
  {
    if n == 0 then 0.0 else Integral(points, n - 1, maxGapMs) + Growth(RateAt(points, n, maxGapMs))
  }

  /** Rate times interval, summed over consecutive ok steps, is the counter's growth. */
  lemma {:induction false} IntegralTelescopes(points: seq<Point>, n: nat, maxGapMs: int)
    requires 0 < n < |points| && forall k | 0 < k <= n :: RateAt(points, k, maxGapMs).Ok?
    ensures points[0].value.Finite? && points[n].value.Finite?
    ensures Integral(points, n, maxGapMs) == points[n].value.r - points[0].value.r
  {
    var step := RateAt(points, n, maxGapMs);
    assert step.Ok?;
    RateOk(points[n - 1], points[n], maxGapMs);
    assert Integral(points, n, maxGapMs) == Integral(points, n - 1, maxGapMs) + Growth(step);
    hide Growth;
    if n > 1 {
      IntegralTelescopes(points, n - 1, maxGapMs);
    } else {
      assert Integral(points, 0, maxGapMs) == 0.0;
    }
  }

  //-------------------------------------------------------
  // The retention ring
  //-------------------------------------------------------

  /** `slice(-n)`; -0 is 0, so a count of 0 keeps everything. */
  function LastN<T>(s: seq<T>, n: nat): seq<T>
  {
    if n == 0 || |s| <= n then s else s[|s| - n..]
  }

  function PushRetained(ring: seq<Point>, point: Point, capacity: nat): seq<Point>
  {
    if |ring| > 0 && ring[|ring| - 1].at == point.at then ring else LastN(ring + [point], capacity)
  }

  function Ring(stream: seq<Point>, capacity: nat): seq<Point>
  {
    if stream == [] then []
    else PushRetained(Ring(stream[..|stream| - 1], capacity), stream[|stream| - 1], capacity)
  }

  /** The stream without a point received at the same time as the one kept before it. */
  function Deduplicated(stream: seq<Point>): seq<Point>
  {
    if stream == [] then []
    else
      Added(Deduplicated(stream[..|stream| - 1]), stream[|stream| - 1])
  }

  /** One more point, unless it was received with the last one. */
  function Added(kept: seq<Point>, p: Point): seq<Point>
  {
    if kept != [] && kept[|kept| - 1].at == p.at then kept else kept + [p]
  }

  lemma LastNPush<T>(s: seq<T>, x: T, n: nat)
    ensures n > 0 ==> LastN(LastN(s, n) + [x], n) == LastN(s + [x], n)
    ensures n == 0 ==> LastN(LastN(s, n) + [x], n) == s + [x]
  {
  }

  /** The ring always holds the last `capacity` points of the deduplicated stream; a capacity of 0 bounds nothing. */
  lemma {:induction false} RingIsSuffix(stream: seq<Point>, capacity: nat)
    ensures Ring(stream, capacity) == LastN(Deduplicated(stream), capacity)
    ensures capacity > 0 ==> |Ring(stream, capacity)| <= capacity
    ensures capacity == 0 ==> Ring(stream, capacity) == Deduplicated(stream)
  {
    if stream != [] {
      hide LastN, Ring, Deduplicated;
      var before, p := stream[..|stream| - 1], stream[|stream| - 1];
      RingIsSuffix(before, capacity);
      RingStep(stream, capacity);
      PushKeeps(Deduplicated(before), p, capacity);
    }
    LastNBounds(Deduplicated(stream), capacity);
    if stream == [] { EmptyRing(capacity); }
  }

  lemma RingStep(stream: seq<Point>, capacity: nat)
    requires stream != []
    ensures var before, p := stream[..|stream| - 1], stream[|stream| - 1];
            && Ring(stream, capacity) == PushRetained(Ring(before, capacity), p, capacity)
            && Deduplicated(stream) == Added(Deduplicated(before), p)
  {
    hide PushRetained;
  }

  lemma PushKeeps(kept: seq<Point>, p: Point, capacity: nat)
    ensures PushRetained(LastN(kept, capacity), p, capacity) == LastN(Added(kept, p), capacity)
  {
    hide LastN;
    LastKept(kept, capacity);
    PushFits(kept, p, capacity);
  }

  lemma PushFits(kept: seq<Point>, p: Point, capacity: nat)
    ensures LastN(LastN(kept, capacity) + [p], capacity) == LastN(kept + [p], capacity)
  {
    LastNPush(kept, p, capacity);
    if capacity == 0 { assert LastN(kept + [p], 0) == kept + [p]; }
  }

  lemma LastKept(s: seq<Point>, n: nat)
    ensures s == [] <==> LastN(s, n) == []
    ensures s != [] ==> LastN(s, n)[|LastN(s, n)| - 1] == s[|s| - 1]
  {
  }

  lemma LastNBounds(s: seq<Point>, n: nat)
    ensures n > 0 ==> |LastN(s, n)| <= n
    ensures n == 0 ==> LastN(s, n) == s
  {
  }

  lemma EmptyRing(capacity: nat)
    ensures Ring([], capacity) == LastN(Deduplicated([]), capacity) == []
  {
  }

  //-------------------------------------------------------
  // Samples and sums
  //-------------------------------------------------------

  type Labels = map<string, string>
  datatype Sample = Sample(labels: Labels, value: Number)

  function Term(n: Number): real { if n.Finite? then n.r else 0.0 }

  function Total(samples: seq<Sample>): real
  {
    if samples == [] then 0.0 else Total(samples[..|samples| - 1]) + Term(samples[|samples| - 1].value)
  }

  predicate SomeFinite(samples: seq<Sample>)
  {
    exists k :: 0 <= k < |samples| && samples[k].value.Finite?
  }

  /** The sum of the finite samples; none when there is not one. */
  function Sum(samples: seq<Sample>): Option<real>
  {
    if SomeFinite(samples) then Some(Total(samples)) else None
  }

  function CountFinite(samples: seq<Sample>): nat
  {
    if samples == [] then 0
    else CountFinite(samples[..|samples| - 1]) + if samples[|samples| - 1].value.Finite? then 1 else 0
  }

  lemma {:induction false} CountPositive(samples: seq<Sample>)
    ensures CountFinite(samples) > 0 <==> SomeFinite(samples)
  {
    if samples != [] {
      var n := |samples| - 1;
      CountPositive(samples[..n]);
      assert forall k | 0 <= k < n :: samples[..n][k] == samples[k];
      if SomeFinite(samples[..n]) {
        var k :| 0 <= k < n && samples[..n][k].value.Finite?;
        assert samples[k].value.Finite?;
      }
    }
  }

  method AggregateSum(samples: seq<Sample>) returns (value: Option<real>, finite: nat, excluded: nat)
    ensures value == Sum(samples)
    ensures finite == CountFinite(samples) && finite + excluded == |samples|
  {
    var sum := 0.0;
    finite, excluded := 0, 0;
    for i := 0 to |samples|
      invariant sum == Total(samples[..i])
      invariant finite == CountFinite(samples[..i]) && finite + excluded == i
    {
      assert samples[..i + 1][..i] == samples[..i];
      if samples[i].value.Finite? {
        sum := sum + samples[i].value.r;
        finite := finite + 1;
      } else {
        excluded := excluded + 1;
      }
    }
    assert samples[..|samples|] == samples;
    CountPositive(samples);
    value := if finite > 0 then Some(sum) else None;
  }

  function Select(samples: seq<Sample>, where: Labels -> bool): (r: seq<Sample>)
    ensures forall s :: s in r <==> s in samples && where(s.labels)
  {
    if samples == [] then []
    else
      var rest, last := Select(samples[..|samples| - 1], where), samples[|samples| - 1];
      assert forall s :: s in samples <==> s in samples[..|samples| - 1] || s == last;
      if where(last.labels) then rest + [last] else rest
  }

  //-------------------------------------------------------
  // Partition rates
  //-------------------------------------------------------

  datatype Snapshot = Snapshot(families: map<string, seq<Sample>>, at: int, healthy: bool)

  /** A selection with no match is a true zero; one whose matches are all non-finite is unknown. */
  function SumOf(samples: seq<Sample>, where: Labels -> bool): Option<real>
  {
    var matched := Select(samples, where);
    if matched == [] then Some(0.0) else Sum(matched)
  }

  function PointOf(sum: Option<real>, at: int): Option<Point>
  {
    if sum.Some? then Some(Point(Finite(sum.value), at)) else None
  }

  /** The previous and the current snapshot, when both hold the family. */
  predicate PairHolds(history: seq<Snapshot>, family: string)
  {
    |history| >= 2 && family in history[|history| - 1].families && family in history[|history| - 2].families
  }

  function PairRate(before: Snapshot, now: Snapshot, family: string, maxGapMs: int, where: Labels -> bool): Rate
    requires family in before.families && family in now.families
  {
    ComputeCounterRate(PointOf(SumOf(before.families[family], where), before.at),
                       PointOf(SumOf(now.families[family], where), now.at), maxGapMs)
  }

  function PartitionRate(history: seq<Snapshot>, family: string, maxGapMs: int, where: Labels -> bool): Rate
  {
    if !PairHolds(history, family) then InsufficientSamples
    else PairRate(history[|history| - 2], history[|history| - 1], family, maxGapMs, where)
  }

  /** On these samples `whole` selects what exactly one of `p` and `q` selects. */
  ghost predicate Splits(samples: seq<Sample>, p: Labels -> bool, q: Labels -> bool, whole: Labels -> bool)
  {
    forall s | s in samples :: whole(s.labels) == (p(s.labels) || q(s.labels)) && !(p(s.labels) && q(s.labels))
  }

  lemma TotalSnoc(samples: seq<Sample>, s: Sample)
    ensures Total(samples + [s]) == Total(samples) + Term(s.value)
  {
    assert (samples + [s])[..|samples|] == samples;
  }

  lemma SelectSnoc(samples: seq<Sample>, where: Labels -> bool)
    requires samples != []
    ensures var rest, last := samples[..|samples| - 1], samples[|samples| - 1];
            && Select(samples, where) == Select(rest, where) + (if where(last.labels) then [last] else [])
            && Total(Select(samples, where)) == Total(Select(rest, where)) + (if where(last.labels) then Term(last.value) else 0.0)
  {
    var rest, last := samples[..|samples| - 1], samples[|samples| - 1];
    if where(last.labels) { TotalSnoc(Select(rest, where), last); }
  }

  lemma {:induction false} SplitTotal(samples: seq<Sample>, p: Labels -> bool, q: Labels -> bool, whole: Labels -> bool)
    requires Splits(samples, p, q, whole)
    ensures Total(Select(samples, whole)) == Total(Select(samples, p)) + Total(Select(samples, q))
  {
    if samples != [] {
      hide Select, Total;
      SelectSnoc(samples, p);
      SelectSnoc(samples, q);
      SelectSnoc(samples, whole);
      assert samples[|samples| - 1] in samples;
      SplitTotal(samples[..|samples| - 1], p, q, whole);
    } else {
    }
  }

  lemma SumOfTotal(samples: seq<Sample>, where: Labels -> bool)
    requires SumOf(samples, where).Some?
    ensures SumOf(samples, where).value == Total(Select(samples, where))
  {
    hide Select;
  }

  lemma FiniteMember(samples: seq<Sample>)
    ensures SomeFinite(samples) <==> exists s :: s in samples && s.value.Finite?
  {
    if s :| s in samples && s.value.Finite? {
      var k :| 0 <= k < |samples| && samples[k] == s;
      assert samples[k].value.Finite?;
    }
  }

  /** If the sums of both parts are known, so is the whole's, and it is their sum. */
  lemma SplitSum(samples: seq<Sample>, p: Labels -> bool, q: Labels -> bool, whole: Labels -> bool)
    requires Splits(samples, p, q, whole) && SumOf(samples, p).Some? && SumOf(samples, q).Some?
    ensures SumOf(samples, whole) == Some(SumOf(samples, p).value + SumOf(samples, q).value)
  {
    SplitTotal(samples, p, q, whole);
    var a, b, c := Select(samples, p), Select(samples, q), Select(samples, whole);
    FiniteMember(a);
    FiniteMember(b);
    FiniteMember(c);
    SumOfTotal(samples, p);
    SumOfTotal(samples, q);
    hide Select, Total, SomeFinite;
    if c == [] {
      EmptyTotal();
    } else {
      assert c[0] in c;
      KnownMember(a, b, c);
      SumOfTotal(samples, whole);
    }
  }

  lemma EmptyTotal()
    ensures Total([]) == 0.0
  {
  }

  lemma KnownMember(a: seq<Sample>, b: seq<Sample>, c: seq<Sample>)
    requires c != [] && forall s | s in c :: s in a || s in b
    requires forall s | s in a || s in b :: s in c
    requires a != [] ==> exists s :: s in a && s.value.Finite?
    requires b != [] ==> exists s :: s in b && s.value.Finite?
    ensures exists s :: s in c && s.value.Finite?
  {
    assert c[0] in c;
    if a != [] {
      var s :| s in a && s.value.Finite?;
      assert s in c;
    } else {
      var s :| s in b && s.value.Finite?;
      assert s in c;
    }
  }

  lemma AddRates(x: real, y: real, intervalMs: int)
    requires intervalMs > 0
    ensures PerSecond(x, intervalMs) + PerSecond(y, intervalMs) == PerSecond(x + y, intervalMs)
    ensures PerSecond(0.0, intervalMs) == 0.0
  {
  }

  /** Rates of two disjoint selections, both ok, add up to the rate of their union. */
  lemma DisjointRatesAdd(history: seq<Snapshot>, family: string, maxGapMs: int,
                         p: Labels -> bool, q: Labels -> bool, whole: Labels -> bool)
    requires PartitionRate(history, family, maxGapMs, p).Ok? && PartitionRate(history, family, maxGapMs, q).Ok?
    requires PairHolds(history, family)
    requires Splits(history[|history| - 1].families[family], p, q, whole)
    requires Splits(history[|history| - 2].families[family], p, q, whole)
    ensures var a, b := PartitionRate(history, family, maxGapMs, p), PartitionRate(history, family, maxGapMs, q);
            PartitionRate(history, family, maxGapMs, whole) == Ok(a.perSecond + b.perSecond, a.intervalMs)
  {
    hide SumOf, Splits, PerSecond;
    var before, now := history[|history| - 2], history[|history| - 1];
    SplitSum(before.families[family], p, q, whole);
    SplitSum(now.families[family], p, q, whole);
    AddRates(SumOf(now.families[family], p).value - SumOf(before.families[family], p).value,
             SumOf(now.families[family], q).value - SumOf(before.families[family], q).value, now.at - before.at);
  }

  /** A predicate's rate and its complement's, both ok, add up to the whole family's. */
  lemma PartitionAddsUp(history: seq<Snapshot>, family: string, maxGapMs: int, p: Labels -> bool)
    requires PartitionRate(history, family, maxGapMs, p).Ok?
    requires PartitionRate(history, family, maxGapMs, (l: Labels) => !p(l)).Ok?
    ensures var a, b := PartitionRate(history, family, maxGapMs, p),
                        PartitionRate(history, family, maxGapMs, (l: Labels) => !p(l));
            PartitionRate(history, family, maxGapMs, (l: Labels) => true) == Ok(a.perSecond + b.perSecond, a.intervalMs)
  {
    hide PairRate;
    DisjointRatesAdd(history, family, maxGapMs, p, (l: Labels) => !p(l), (l: Labels) => true);
  }

  /** Where the family is in both snapshots but no sample of either matches, nothing happened: the rate is 0. Where
      it is missing from one, nothing is known. */
  lemma NothingMatched(history: seq<Snapshot>, family: string, maxGapMs: int, where: Labels -> bool)
    ensures !PairHolds(history, family) ==> PartitionRate(history, family, maxGapMs, where) == InsufficientSamples
    ensures PairHolds(history, family) ==>
              var before, now := history[|history| - 2], history[|history| - 1];
              (forall s | s in before.families[family] || s in now.families[family] :: !where(s.labels))
              && 0 < now.at - before.at <= maxGapMs
              ==> PartitionRate(history, family, maxGapMs, where) == Ok(0.0, now.at - before.at)
  {
    if PairHolds(history, family) {
      var before, now := history[|history| - 2], history[|history| - 1];
      if forall s | s in before.families[family] || s in now.families[family] :: !where(s.labels) {
        Unmatched(before.families[family], where);
        Unmatched(now.families[family], where);
      }
    }
  }

  lemma {:induction false} Unmatched(samples: seq<Sample>, where: Labels -> bool)
    requires forall s | s in samples :: !where(s.labels)
    ensures Select(samples, where) == []
  {
    if samples != [] {
      Unmatched(samples[..|samples| - 1], where);
      assert samples[|samples| - 1] in samples;
    }
  }
}
