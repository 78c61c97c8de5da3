/** `requestOutcomes`: offered load, denials, failures and the error ratio, from one snapshot pair. */
module AiRequests {
  import opened Text
  import opened Rates

  const AI_REQUESTS := "loxilb_ai_requests_total"
  const OUTCOME := "outcome"
  const STATUS := "status"
  const OUTCOME_COMPLETED := "completed"
  const OUTCOME_DENIED := "denied"

  /** Purely digits, and at least 400. */
  predicate IsErrorStatus(status: Option<string>)
  {
    status.Some? && IsDecimal(status.value) && NumeralValue(status.value, 10) >= 400
  }

  /** A status is an error exactly when it is a number from 400 on. */
  lemma ErrorFrom400(n: nat)
    ensures IsErrorStatus(Some(Decimal(n))) <==> n >= 400
  {
    NumeralRoundTrip(n, 10);
  }

  /** And no text with anything but digits is. */
  lemma OnlyDigits(status: string, k: nat)
    requires k < |status| && !('0' <= status[k] <= '9')
    ensures !IsErrorStatus(Some(status)) && !IsErrorStatus(None)
  {
    assert status[k] in status;
  }

  function Read(l: Labels, name: string): Option<string> { if name in l then Some(l[name]) else None }

  function All(): Labels -> bool { (l: Labels) => true }

  function Completed(): Labels -> bool { (l: Labels) => Read(l, OUTCOME) == Some(OUTCOME_COMPLETED) }

  function Denied(): Labels -> bool { (l: Labels) => Read(l, OUTCOME) == Some(OUTCOME_DENIED) }

  function Failed(): Labels -> bool
  {
    (l: Labels) => Read(l, OUTCOME) == Some(OUTCOME_COMPLETED) && IsErrorStatus(Read(l, STATUS))
  }

  function Errors(): Labels -> bool
  {
    (l: Labels) => Read(l, OUTCOME) == Some(OUTCOME_DENIED) || IsErrorStatus(Read(l, STATUS))
  }

  /** Answered without a failing status. */
  function Succeeded(): Labels -> bool
  {
    (l: Labels) => Read(l, OUTCOME) == Some(OUTCOME_COMPLETED) && !IsErrorStatus(Read(l, STATUS))
  }

  /** Which samples each rate is of, by the labels `outcome` and `status`. */
  lemma SelectionsAre(l: Labels)
    ensures var outcome := if "outcome" in l then Some(l["outcome"]) else None;
            var error := "status" in l && IsErrorStatus(Some(l["status"]));
            && (Completed()(l) <==> outcome == Some("completed"))
            && (Denied()(l) <==> outcome == Some("denied"))
            && (Failed()(l) <==> outcome == Some("completed") && error)
            && (Errors()(l) <==> outcome == Some("denied") || error)
            && All()(l)
  {
    hide IsErrorStatus;
    assert !IsErrorStatus(None) by { OnlyDigits("x", 0); }
  }

  datatype Ratio = RatioOk(ratio: real) | NoTraffic | NotDerivable(reason: Rate)

  function RatioOf(numerator: Rate, denominator: Rate): Ratio
  {
    if !numerator.Ok? then NotDerivable(numerator)
    else if !denominator.Ok? then NotDerivable(denominator)
    else if denominator.perSecond <= 0.0 then NoTraffic
    else RatioOk(numerator.perSecond / denominator.perSecond)
  }

  datatype Outcomes =
    | Unpartitioned
    | Partitioned(offered: Rate, completed: Rate, denied: Rate, failed: Rate, errorRatio: Ratio)

  predicate HasOutcomePartition(history: seq<Snapshot>)
  {
    |history| > 0
    && var now := history[|history| - 1];
       AI_REQUESTS in now.families && exists s :: s in now.families[AI_REQUESTS] && OUTCOME in s.labels
  }

  function RateOf(history: seq<Snapshot>, maxGapMs: int, where: Labels -> bool): Rate
  {
    PartitionRate(history, AI_REQUESTS, maxGapMs, where)
  }

  function RequestOutcomes(history: seq<Snapshot>, maxGapMs: int): Outcomes
  {
    if !HasOutcomePartition(history) then Unpartitioned
    else
      Partitioned(RateOf(history, maxGapMs, All()), RateOf(history, maxGapMs, Completed()),
                  RateOf(history, maxGapMs, Denied()), RateOf(history, maxGapMs, Failed()),
                  RatioOf(RateOf(history, maxGapMs, Errors()), RateOf(history, maxGapMs, All())))
  }

  /** The outcomes are told exactly when a sample of the newest exposition of the family says its outcome. */
  lemma ToldExactly(history: seq<Snapshot>, maxGapMs: int)
    ensures RequestOutcomes(history, maxGapMs).Partitioned? <==>
              && history != [] && "loxilb_ai_requests_total" in history[|history| - 1].families
              && exists s :: s in history[|history| - 1].families["loxilb_ai_requests_total"] && "outcome" in s.labels
  {
    hide RateOf, RatioOf;
  }

  /** Every sample says whether its requests were completed or denied. */
  ghost predicate TwoOutcomes(samples: seq<Sample>)
  {
    forall s | s in samples :: Completed()(s.labels) || Denied()(s.labels)
  }

  lemma OutcomesSplit(samples: seq<Sample>)
    requires TwoOutcomes(samples)
    ensures Splits(samples, Denied(), Failed(), Errors())
    ensures Splits(samples, Errors(), Succeeded(), All())
    ensures Splits(samples, Failed(), Succeeded(), Completed())
  {
    hide IsErrorStatus;
    assert OUTCOME_COMPLETED[0] != OUTCOME_DENIED[0];
  }

  /** No decrease in any subset: denials, failures and successes each have a rate. */
  predicate SubsetsOk(history: seq<Snapshot>, maxGapMs: int)
  {
    RateOf(history, maxGapMs, Denied()).Ok? && RateOf(history, maxGapMs, Failed()).Ok?
    && RateOf(history, maxGapMs, Succeeded()).Ok?
  }

  lemma PartitionOk(history: seq<Snapshot>, maxGapMs: int, where: Labels -> bool)
    requires RateOf(history, maxGapMs, where).Ok?
    ensures PairHolds(history, AI_REQUESTS) && RateOf(history, maxGapMs, where).perSecond >= 0.0
  {
    hide SumOf, ComputeCounterRate;
    var before, now := history[|history| - 2], history[|history| - 1];
    var a, b := SumOf(before.families[AI_REQUESTS], where), SumOf(now.families[AI_REQUESTS], where);
    BothKnown(PointOf(a, before.at), PointOf(b, now.at), maxGapMs);
    RateOk(Point(Finite(a.value), before.at), Point(Finite(b.value), now.at), maxGapMs);
  }

  lemma BothKnown(a: Option<Point>, b: Option<Point>, maxGapMs: int)
    requires ComputeCounterRate(a, b, maxGapMs).Ok?
    ensures a.Some? && b.Some?
  {
  }

  lemma Share(part: real, rest: real)
    requires part >= 0.0 && rest >= 0.0 && part + rest > 0.0
    ensures 0.0 <= part / (part + rest) <= 1.0
  {
  }

  /** With two outcomes and no decreasing subset: completed is succeeded and failed, offered is completed and
      denied, and the error ratio is (denied + failed) / offered, between 0 and 1; no traffic exactly when nothing moved. */
  lemma ErrorRatio(history: seq<Snapshot>, maxGapMs: int)
    requires HasOutcomePartition(history) && SubsetsOk(history, maxGapMs)
    requires TwoOutcomes(history[|history| - 1].families[AI_REQUESTS])
    requires PairHolds(history, AI_REQUESTS) && TwoOutcomes(history[|history| - 2].families[AI_REQUESTS])
    ensures var o := RequestOutcomes(history, maxGapMs);
            && o.Partitioned? && o.offered.Ok? && o.completed.Ok? && o.denied.Ok? && o.failed.Ok?
            && o.offered.perSecond == o.completed.perSecond + o.denied.perSecond
            && (o.errorRatio.NoTraffic? <==> o.offered.perSecond == 0.0)
            && !o.errorRatio.NotDerivable?
            && (o.errorRatio.RatioOk? ==>
                  o.errorRatio.ratio == (o.denied.perSecond + o.failed.perSecond) / o.offered.perSecond
                  && 0.0 <= o.errorRatio.ratio <= 1.0)
  {
    hide HasOutcomePartition, TwoOutcomes, PartitionRate, Splits, Errors, Denied, Failed, Succeeded, Completed, All;
    var before, now := history[|history| - 2].families[AI_REQUESTS], history[|history| - 1].families[AI_REQUESTS];
    OutcomesSplit(before);
    OutcomesSplit(now);
    DisjointRatesAdd(history, AI_REQUESTS, maxGapMs, Denied(), Failed(), Errors());
    DisjointRatesAdd(history, AI_REQUESTS, maxGapMs, Errors(), Succeeded(), All());
    DisjointRatesAdd(history, AI_REQUESTS, maxGapMs, Failed(), Succeeded(), Completed());
    PartitionOk(history, maxGapMs, Denied());
    PartitionOk(history, maxGapMs, Failed());
    PartitionOk(history, maxGapMs, Succeeded());
    var errors, rest := RateOf(history, maxGapMs, Errors()).perSecond, RateOf(history, maxGapMs, Succeeded()).perSecond;
    if errors + rest > 0.0 { Share(errors, rest); }
  }
}
