/** Group and family rates over the snapshot history, and the outcome partition of AI requests. */
module SnapshotRates {
  import opened Text
  import opened Rates

  //-------------------------------------------------------
  // Grouping
  //-------------------------------------------------------

  function LabelOf(labels: Labels, name: string): string { if name in labels then labels[name] else "" }

  /** `k=v` for every grouping label, separated by NUL. */
  function GroupKey(labels: Labels, groupBy: seq<string>): string
  {
    if groupBy == [] then ""
    else if |groupBy| == 1 then groupBy[0] + "=" + LabelOf(labels, groupBy[0])
    else groupBy[0] + "=" + LabelOf(labels, groupBy[0]) + "\0" + GroupKey(labels, groupBy[1..])
  }

  datatype Group = Group(labels: Labels, samples: seq<Sample>)

  /** The groups in the order their first sample came. */
  datatype Groups = Groups(order: seq<string>, of: map<string, Group>)

  function InGroup(groupBy: seq<string>, where: Labels -> bool, key: string): Labels -> bool
  {
    (l: Labels) => where(l) && GroupKey(l, groupBy) == key
  }

  function InGroups(groupBy: seq<string>, where: Labels -> bool, keys: seq<string>): Labels -> bool
  {
    (l: Labels) => where(l) && GroupKey(l, groupBy) in keys
  }

  predicate Distinct(keys: seq<string>)
  {
    forall i, j | 0 <= i < j < |keys| :: keys[i] != keys[j]
  }

  /** The keys of the matching samples, each where it first comes. */
  function KeysInOrder(samples: seq<Sample>, groupBy: seq<string>, where: Labels -> bool): seq<string>
  {
    if samples == [] then []
    else
      var before, s := KeysInOrder(samples[..|samples| - 1], groupBy, where), samples[|samples| - 1];
      var key := GroupKey(s.labels, groupBy);
      if where(s.labels) && key !in before then before + [key] else before
  }

  /** Each group holds exactly the matching samples of its key, in order, and no sample is left out. */
  ghost predicate Grouped(g: Groups, samples: seq<Sample>, groupBy: seq<string>, where: Labels -> bool)
  {
    && Distinct(g.order) && (forall k :: k in g.of <==> k in g.order)
    && (forall k | k in g.of :: g.of[k].samples == Select(samples, InGroup(groupBy, where, k)) && g.of[k].samples != [])
    && (forall s | s in samples && where(s.labels) :: GroupKey(s.labels, groupBy) in g.of)
  }

  /** The grouping labels a sample carries. */
  function Projected(labels: Labels, groupBy: seq<string>): Labels
  {
    map k | k in groupBy && k in labels :: labels[k]
  }

  lemma {:induction false} SelectNone(samples: seq<Sample>, where: Labels -> bool)
    requires forall s | s in samples :: !where(s.labels)
    ensures Select(samples, where) == []
  {
    if samples != [] {
      assert samples[|samples| - 1] in samples;
      SelectNone(samples[..|samples| - 1], where);
    }
  }

  /** The groups come in the order of their first samples, and carry the grouping labels of those. */
  ghost predicate Labelled(g: Groups, samples: seq<Sample>, groupBy: seq<string>, where: Labels -> bool)
  {
    && g.order == KeysInOrder(samples, groupBy, where)
    && (forall k | k in g.of :: g.of[k].samples != [] && g.of[k].labels == Projected(g.of[k].samples[0].labels, groupBy))
  }

  lemma SelectOne(samples: seq<Sample>, s: Sample, where: Labels -> bool)
    ensures Select(samples + [s], where) == Select(samples, where) + (if where(s.labels) then [s] else [])
  {
    SelectSnoc(samples + [s], where);
    assert (samples + [s])[..|samples|] == samples;
  }

  /** One pass of the grouping loop. */
  function Insert(g: Groups, s: Sample, groupBy: seq<string>, where: Labels -> bool): Groups
  {
    if !where(s.labels) then g
    else
      var key := GroupKey(s.labels, groupBy);
      if key in g.of then g.(of := g.of[key := g.of[key].(samples := g.of[key].samples + [s])])
      else Groups(g.order + [key], g.of[key := Group(Projected(s.labels, groupBy), [s])])
  }

  lemma InsertKeeps(g: Groups, samples: seq<Sample>, s: Sample, groupBy: seq<string>, where: Labels -> bool)
    requires Grouped(g, samples, groupBy, where)
    ensures Grouped(Insert(g, s, groupBy, where), samples + [s], groupBy, where)
  {
    hide GroupKey, Select, Projected;
    var g', key := Insert(g, s, groupBy, where), GroupKey(s.labels, groupBy);
    forall k | k in g'.of
      ensures g'.of[k].samples == Select(samples + [s], InGroup(groupBy, where, k)) && g'.of[k].samples != []
    {
      SelectOne(samples, s, InGroup(groupBy, where, k));
      if k !in g.of { NoneMatch(g, samples, groupBy, where, k); }
    }
  }

  lemma InsertLabels(g: Groups, samples: seq<Sample>, s: Sample, groupBy: seq<string>, where: Labels -> bool)
    requires Labelled(g, samples, groupBy, where) && forall k :: k in g.of <==> k in g.order
    ensures Labelled(Insert(g, s, groupBy, where), samples + [s], groupBy, where)
  {
    hide GroupKey, Projected;
    assert (samples + [s])[..|samples|] == samples;
  }

  lemma NoneMatch(g: Groups, samples: seq<Sample>, groupBy: seq<string>, where: Labels -> bool, k: string)
    requires Grouped(g, samples, groupBy, where) && k !in g.of
    ensures Select(samples, InGroup(groupBy, where, k)) == []
  {
    hide GroupKey;
    SelectNone(samples, InGroup(groupBy, where, k));
  }

  method GroupSamples(samples: seq<Sample>, groupBy: seq<string>, where: Labels -> bool) returns (g: Groups)
    ensures Grouped(g, samples, groupBy, where) && Labelled(g, samples, groupBy, where)
  {
    hide GroupKey, Select, Grouped, Labelled, Projected, KeysInOrder;
    g := Groups([], map[]);
    NoGroupsYet(groupBy, where);
    for i := 0 to |samples|
      invariant Grouped(g, samples[..i], groupBy, where) && Labelled(g, samples[..i], groupBy, where)
    {
      var s := samples[i];
      ghost var before := g;
      InsertKeeps(g, samples[..i], s, groupBy, where);
      GroupedKeys(g, samples[..i], groupBy, where);
      InsertLabels(g, samples[..i], s, groupBy, where);
      assert samples[..i] + [s] == samples[..i + 1];
      if where(s.labels) {
        var key := GroupKey(s.labels, groupBy);
        if key !in g.of {
          g := Groups(g.order + [key], g.of[key := Group(Projected(s.labels, groupBy), [])]);
        }
        g := g.(of := g.of[key := g.of[key].(samples := g.of[key].samples + [s])]);
        assert key !in before.of ==> g.of[key].samples == [s];
        assert g.of == Insert(before, s, groupBy, where).of;
      }
    }
    assert samples[..|samples|] == samples;
  }

  lemma NoGroupsYet(groupBy: seq<string>, where: Labels -> bool)
    ensures Grouped(Groups([], map[]), [], groupBy, where) && Labelled(Groups([], map[]), [], groupBy, where)
  {
  }

  lemma GroupedCovers(g: Groups, samples: seq<Sample>, groupBy: seq<string>, where: Labels -> bool)
    requires Grouped(g, samples, groupBy, where) && Labelled(g, samples, groupBy, where)
    ensures Distinct(g.order) && Covers(g.order, samples, groupBy, where)
    ensures g.order == KeysInOrder(samples, groupBy, where)
  {
    hide Select, GroupKey, Projected, KeysInOrder;
  }

  lemma GroupedKeys(g: Groups, samples: seq<Sample>, groupBy: seq<string>, where: Labels -> bool)
    requires Grouped(g, samples, groupBy, where)
    ensures forall k :: k in g.of <==> k in g.order
  {
    hide Select, GroupKey;
  }

  /** The groups' totals, key by key. */
  function GroupTotals(samples: seq<Sample>, groupBy: seq<string>, where: Labels -> bool, keys: seq<string>): real
  {
    if keys == [] then 0.0
    else Total(Select(samples, InGroup(groupBy, where, keys[0]))) + GroupTotals(samples, groupBy, where, keys[1..])
  }

  lemma {:induction false} SelectSame(samples: seq<Sample>, p: Labels -> bool, q: Labels -> bool)
    requires forall s | s in samples :: p(s.labels) == q(s.labels)
    ensures Select(samples, p) == Select(samples, q)
  {
    if samples != [] {
      assert samples[|samples| - 1] in samples;
      SelectSame(samples[..|samples| - 1], p, q);
    }
  }

  lemma GroupSplits(samples: seq<Sample>, groupBy: seq<string>, where: Labels -> bool, keys: seq<string>)
    requires keys != [] && Distinct(keys)
    ensures Splits(samples, InGroup(groupBy, where, keys[0]), InGroups(groupBy, where, keys[1..]),
                   InGroups(groupBy, where, keys))
    ensures Distinct(keys[1..])
  {
    assert forall k :: k in keys <==> k == keys[0] || k in keys[1..];
  }

  lemma {:induction false} GroupTotalsAdd(samples: seq<Sample>, groupBy: seq<string>, where: Labels -> bool, keys: seq<string>)
    requires Distinct(keys)
    ensures GroupTotals(samples, groupBy, where, keys) == Total(Select(samples, InGroups(groupBy, where, keys)))
  {
    hide Select, Total, Splits, Distinct;
    if keys == [] {
      SelectNone(samples, InGroups(groupBy, where, keys));
      EmptyTotal();
    } else {
      GroupSplits(samples, groupBy, where, keys);
      SplitTotal(samples, InGroup(groupBy, where, keys[0]), InGroups(groupBy, where, keys[1..]),
                 InGroups(groupBy, where, keys));
      GroupTotalsAdd(samples, groupBy, where, keys[1..]);
    }
  }

  /** Every matching sample's key is listed. */
  ghost predicate Covers(keys: seq<string>, samples: seq<Sample>, groupBy: seq<string>, where: Labels -> bool)
  {
    forall s | s in samples && where(s.labels) :: GroupKey(s.labels, groupBy) in keys
  }

  /** Grouping neither loses nor counts twice: the groups add up to the selection. */
  lemma GroupsConserve(samples: seq<Sample>, groupBy: seq<string>, where: Labels -> bool, keys: seq<string>)
    requires Distinct(keys) && Covers(keys, samples, groupBy, where)
    ensures GroupTotals(samples, groupBy, where, keys) == Total(Select(samples, where))
  {
    hide Select, Total, GroupKey;
    GroupTotalsAdd(samples, groupBy, where, keys);
    SelectSame(samples, InGroups(groupBy, where, keys), where);
  }

  //-------------------------------------------------------
  // Group rates
  //-------------------------------------------------------

  function Samples(s: Snapshot, family: string): seq<Sample> { if family in s.families then s.families[family] else [] }

  /** The rate of one selection between two snapshots; a selection without a finite sample is unknown. */
  function SelectionRate(before: Option<Snapshot>, now: Snapshot, family: string, maxGapMs: int, where: Labels -> bool): Rate
  {
    ComputeCounterRate(
      if before.Some? then PointOf(Sum(Select(Samples(before.value, family), where)), before.value.at) else None,
      PointOf(Sum(Select(Samples(now, family), where)), now.at), maxGapMs)
  }

  function Previous(history: seq<Snapshot>): Option<Snapshot>
  {
    if |history| >= 2 then Some(history[|history| - 2]) else None
  }

  datatype GroupRate = GroupRate(key: string, labels: Labels, rate: Rate, current: Option<real>)

  /** The current sum of a group, the rate it grew at, and the grouping labels of its first sample. */
  predicate RatesGroup(g: GroupRate, history: seq<Snapshot>, family: string, groupBy: seq<string>, maxGapMs: int,
                       where: Labels -> bool)
    requires history != []
  {
    var now, inGroup := history[|history| - 1], InGroup(groupBy, where, g.key);
    && g.rate == SelectionRate(Previous(history), now, family, maxGapMs, inGroup)
    && g.current == Sum(Select(Samples(now, family), inGroup))
    && Select(Samples(now, family), inGroup) != []
    && g.labels == Projected(Select(Samples(now, family), inGroup)[0].labels, groupBy)
  }

  method GroupValue(g: Groups, key: string, samples: seq<Sample>, groupBy: seq<string>, where: Labels -> bool)
    returns (value: Option<real>)
    requires Grouped(g, samples, groupBy, where)
    ensures value == Sum(Select(samples, InGroup(groupBy, where, key)))
  {
    hide GroupKey, Select, Sum;
    if key in g.of {
      var finite, excluded;
      value, finite, excluded := AggregateSum(g.of[key].samples);
    } else {
      NoneMatch(g, samples, groupBy, where, key);
      SumOfNone();
      value := None;
    }
  }

  lemma SumOfNone()
    ensures Sum([]) == None
  {
  }

  lemma GroupNotEmpty(g: Groups, samples: seq<Sample>, groupBy: seq<string>, where: Labels -> bool, k: string)
    requires Grouped(g, samples, groupBy, where) && Labelled(g, samples, groupBy, where) && k in g.order
    ensures k in g.of && Select(samples, InGroup(groupBy, where, k)) != []
    ensures g.of[k].labels == Projected(Select(samples, InGroup(groupBy, where, k))[0].labels, groupBy)
  {
    hide GroupKey, Select, Projected;
  }

  /** The samples a previous snapshot had. */
  function Earlier(history: seq<Snapshot>, family: string): seq<Sample>
  {
    if |history| >= 2 then Samples(history[|history| - 2], family) else []
  }

  method RateGroup(history: seq<Snapshot>, family: string, groupBy: seq<string>, maxGapMs: int, where: Labels -> bool,
                   now: Groups, before: Groups, key: string) returns (r: GroupRate)
    requires history != [] && key in now.order
    requires var current := Samples(history[|history| - 1], family);
             Grouped(now, current, groupBy, where) && Labelled(now, current, groupBy, where)
    requires Grouped(before, Earlier(history, family), groupBy, where)
    ensures r.key == key && RatesGroup(r, history, family, groupBy, maxGapMs, where)
  {
    hide GroupKey, Select, Sum, ComputeCounterRate, InGroup, Projected, Grouped, Labelled;
    var current := history[|history| - 1];
    var value := GroupValue(now, key, Samples(current, family), groupBy, where);
    var was := GroupValue(before, key, Earlier(history, family), groupBy, where);
    GroupNotEmpty(now, Samples(current, family), groupBy, where, key);
    var point := if |history| >= 2 then PointOf(was, history[|history| - 2].at) else None;
    r := GroupRate(key, now.of[key].labels, ComputeCounterRate(point, PointOf(value, current.at), maxGapMs), value);
  }

  lemma NoKeys()
    ensures Distinct([])
  {
  }

  method GroupRates(history: seq<Snapshot>, family: string, groupBy: seq<string>, maxGapMs: int, where: Labels -> bool)
    returns (keys: seq<string>, out: seq<GroupRate>)
    ensures |keys| == |out| && Distinct(keys) && forall i | 0 <= i < |out| :: out[i].key == keys[i]
    ensures history == [] ==> out == []
    ensures history != [] ==>
              && Covers(keys, Samples(history[|history| - 1], family), groupBy, where)
              && keys == KeysInOrder(Samples(history[|history| - 1], family), groupBy, where)
              && forall i | 0 <= i < |out| :: RatesGroup(out[i], history, family, groupBy, maxGapMs, where)
  {
    hide *;
    keys, out := [], [];
    NoKeys();
    if history == [] { return; }
    var current := Samples(history[|history| - 1], family);
    var now := GroupSamples(current, groupBy, where);
    var before := GroupSamples(Earlier(history, family), groupBy, where);
    keys := now.order;
    GroupedCovers(now, current, groupBy, where);
    for i := 0 to |keys|
      invariant |out| == i && forall j | 0 <= j < i :: out[j].key == keys[j]
      invariant forall j | 0 <= j < i :: RatesGroup(out[j], history, family, groupBy, maxGapMs, where)
    {
      var rate := RateGroup(history, family, groupBy, maxGapMs, where, now, before, keys[i]);
      out := out + [rate];
    }
  }

  //-------------------------------------------------------
  // The whole family
  //-------------------------------------------------------

  /** The rate over everything `where` selects; `absent`, with the manifest's
      reading of why, when a healthy current snapshot lacks the family. */
  function SumRate(history: seq<Snapshot>, family: string, maxGapMs: int, where: Labels -> bool, manifest: string -> string): Rate
  {
    if history == [] then InsufficientSamples
    else
      var now := history[|history| - 1];
      if now.healthy && family !in now.families then Absent(manifest(family))
      else SelectionRate(Previous(history), now, family, maxGapMs, where)
  }

  lemma OneKey(labels: Labels)
    ensures GroupKey(labels, []) == ""
  {
  }

  lemma WholeGroup(samples: seq<Sample>, where: Labels -> bool)
    ensures Select(samples, InGroup([], where, "")) == Select(samples, where)
  {
    SelectSame(samples, InGroup([], where, ""), where);
  }

  method FamilySumRate(history: seq<Snapshot>, family: string, maxGapMs: int, where: Labels -> bool,
                       manifest: string -> string) returns (rate: Rate)
    ensures rate == SumRate(history, family, maxGapMs, where, manifest)
  {
    hide Select, Sum, ComputeCounterRate;
    if history != [] && history[|history| - 1].healthy && family !in history[|history| - 1].families {
      return Absent(manifest(family));
    }
    var keys, rates := GroupRates(history, family, [], maxGapMs, where);
    rate := if |rates| == 1 then rates[0].rate else InsufficientSamples;
    if history != [] {
      WholeFamily(history, family, maxGapMs, where, keys, rates);
    }
  }

  lemma WholeFamily(history: seq<Snapshot>, family: string, maxGapMs: int, where: Labels -> bool,
                    keys: seq<string>, rates: seq<GroupRate>)
    requires history != [] && |keys| == |rates| && Distinct(keys)
    requires forall i | 0 <= i < |rates| :: rates[i].key == keys[i]
    requires Covers(keys, Samples(history[|history| - 1], family), [], where)
    requires forall i | 0 <= i < |rates| :: RatesGroup(rates[i], history, family, [], maxGapMs, where)
    ensures SelectionRate(Previous(history), history[|history| - 1], family, maxGapMs, where)
         == if |rates| == 1 then rates[0].rate else InsufficientSamples
  {
    hide Select, Sum, ComputeCounterRate, GroupKey;
    var now := history[|history| - 1];
    var samples := Samples(now, family);
    if |rates| == 0 {
      SelectNone(samples, where);
      SumOfNone();
      NoCurrent(history, family, maxGapMs, where);
    } else {
      forall i | 0 <= i < |keys|
        ensures keys[i] == ""
      {
        assert RatesGroup(rates[i], history, family, [], maxGapMs, where);
        OnlyKey(samples, where, keys[i]);
      }
      TwoKeys(keys);
      assert RatesGroup(rates[0], history, family, [], maxGapMs, where);
      WholeGroup(samples, where);
      if Previous(history).Some? { WholeGroup(Samples(Previous(history).value, family), where); }
    }
  }

  lemma TwoKeys(keys: seq<string>)
    requires Distinct(keys)
    ensures |keys| > 1 ==> exists i :: 0 <= i < |keys| && keys[i] != ""
  {
    if |keys| > 1 {
      assert keys[0] != keys[1];
      assert keys[0] != "" || keys[1] != "";
    }
  }

  lemma OnlyKey(samples: seq<Sample>, where: Labels -> bool, key: string)
    requires Select(samples, InGroup([], where, key)) != []
    ensures key == ""
  {
    var r := Select(samples, InGroup([], where, key));
    assert r[0] in r;
    OneKey(r[0].labels);
  }

  lemma NoCurrent(history: seq<Snapshot>, family: string, maxGapMs: int, where: Labels -> bool)
    requires history != [] && Sum(Select(Samples(history[|history| - 1], family), where)) == None
    ensures SelectionRate(Previous(history), history[|history| - 1], family, maxGapMs, where) == InsufficientSamples
  {
  }

  /** Groups whose rates are all ok add up to the family's rate, when they cover both snapshots. */
  function RateTotal(history: seq<Snapshot>, family: string, groupBy: seq<string>, maxGapMs: int,
                     where: Labels -> bool, keys: seq<string>): real
    requires history != []
  {
    if keys == [] then 0.0
    else
      var r := SelectionRate(Previous(history), history[|history| - 1], family, maxGapMs, InGroup(groupBy, where, keys[0]));
      (if r.Ok? then r.perSecond else 0.0) + RateTotal(history, family, groupBy, maxGapMs, where, keys[1..])
  }

  ghost predicate AllGroupsOk(history: seq<Snapshot>, family: string, groupBy: seq<string>, maxGapMs: int,
                              where: Labels -> bool, keys: seq<string>)
    requires history != []
  {
    forall k | k in keys ::
      SelectionRate(Previous(history), history[|history| - 1], family, maxGapMs, InGroup(groupBy, where, k)).Ok?
  }

  lemma SelectionOk(before: Snapshot, now: Snapshot, family: string, maxGapMs: int, where: Labels -> bool)
    requires SelectionRate(Some(before), now, family, maxGapMs, where).Ok?
    ensures var a, b := Select(Samples(before, family), where), Select(Samples(now, family), where);
            && 0 < now.at - before.at <= maxGapMs
            && SomeFinite(a) && SomeFinite(b) && Total(b) >= Total(a)
            && SelectionRate(Some(before), now, family, maxGapMs, where)
               == Ok(PerSecond(Total(b) - Total(a), now.at - before.at), now.at - before.at)
  {
    hide Select, Total, SomeFinite, PerSecond;
  }

  lemma {:induction false} GroupGrowth(before: Snapshot, now: Snapshot, history: seq<Snapshot>, family: string,
                                       groupBy: seq<string>, maxGapMs: int, where: Labels -> bool, keys: seq<string>)
    requires |history| >= 2 && history[|history| - 2] == before && history[|history| - 1] == now && now.at > before.at
    requires AllGroupsOk(history, family, groupBy, maxGapMs, where, keys)
    ensures var a, b := GroupTotals(Samples(before, family), groupBy, where, keys),
                        GroupTotals(Samples(now, family), groupBy, where, keys);
            RateTotal(history, family, groupBy, maxGapMs, where, keys) == PerSecond(b - a, now.at - before.at) && b >= a
  {
    hide *;
    if keys == [] {
      NoGroups(before, now, history, family, groupBy, maxGapMs, where);
    } else {
      var k := keys[0];
      FirstOk(history, family, groupBy, maxGapMs, where, keys);
      SelectionOk(before, now, family, maxGapMs, InGroup(groupBy, where, k));
      GroupGrowth(before, now, history, family, groupBy, maxGapMs, where, keys[1..]);
      FirstTotal(Samples(before, family), groupBy, where, keys);
      FirstTotal(Samples(now, family), groupBy, where, keys);
      FirstRate(before, now, history, family, groupBy, maxGapMs, where, keys);
      AddRates(Total(Select(Samples(now, family), InGroup(groupBy, where, k)))
               - Total(Select(Samples(before, family), InGroup(groupBy, where, k))),
               GroupTotals(Samples(now, family), groupBy, where, keys[1..])
               - GroupTotals(Samples(before, family), groupBy, where, keys[1..]),
               now.at - before.at);
    }
  }

  lemma NoGroups(before: Snapshot, now: Snapshot, history: seq<Snapshot>, family: string, groupBy: seq<string>,
                 maxGapMs: int, where: Labels -> bool)
    requires history != [] && now.at > before.at
    ensures GroupTotals(Samples(before, family), groupBy, where, []) == 0.0
    ensures GroupTotals(Samples(now, family), groupBy, where, []) == 0.0
    ensures RateTotal(history, family, groupBy, maxGapMs, where, []) == 0.0 == PerSecond(0.0, now.at - before.at)
  {
  }

  lemma FirstOk(history: seq<Snapshot>, family: string, groupBy: seq<string>, maxGapMs: int, where: Labels -> bool,
                keys: seq<string>)
    requires |history| >= 2 && keys != [] && AllGroupsOk(history, family, groupBy, maxGapMs, where, keys)
    ensures SelectionRate(Some(history[|history| - 2]), history[|history| - 1], family, maxGapMs,
                          InGroup(groupBy, where, keys[0])).Ok?
    ensures AllGroupsOk(history, family, groupBy, maxGapMs, where, keys[1..])
  {
    hide SelectionRate;
    assert keys[0] in keys;
  }

  lemma FirstTotal(samples: seq<Sample>, groupBy: seq<string>, where: Labels -> bool, keys: seq<string>)
    requires keys != []
    ensures GroupTotals(samples, groupBy, where, keys)
         == Total(Select(samples, InGroup(groupBy, where, keys[0]))) + GroupTotals(samples, groupBy, where, keys[1..])
  {
  }

  lemma FirstRate(before: Snapshot, now: Snapshot, history: seq<Snapshot>, family: string, groupBy: seq<string>,
                  maxGapMs: int, where: Labels -> bool, keys: seq<string>)
    requires |history| >= 2 && history[|history| - 2] == before && history[|history| - 1] == now && keys != []
    requires SelectionRate(Some(before), now, family, maxGapMs, InGroup(groupBy, where, keys[0])).Ok?
    ensures RateTotal(history, family, groupBy, maxGapMs, where, keys)
         == SelectionRate(Some(before), now, family, maxGapMs, InGroup(groupBy, where, keys[0])).perSecond
            + RateTotal(history, family, groupBy, maxGapMs, where, keys[1..])
  {
    hide SelectionRate;
  }

  /** If every group's rate is ok and the groups cover both snapshots, the family's rate is ok and is their sum. */
  lemma GroupRatesAddUp(history: seq<Snapshot>, family: string, groupBy: seq<string>, maxGapMs: int,
                        where: Labels -> bool, keys: seq<string>, manifest: string -> string)
    requires |history| >= 2 && keys != [] && Distinct(keys)
    requires AllGroupsOk(history, family, groupBy, maxGapMs, where, keys)
    requires Covers(keys, Samples(history[|history| - 1], family), groupBy, where)
    requires Covers(keys, Samples(history[|history| - 2], family), groupBy, where)
    ensures var r := SumRate(history, family, maxGapMs, where, manifest);
            r.Ok? && r.perSecond == RateTotal(history, family, groupBy, maxGapMs, where, keys)
  {
    hide Select, Total, GroupKey, SelectionRate, GroupTotals, RateTotal, Covers;
    var before, now := history[|history| - 2], history[|history| - 1];
    assert keys[0] in keys;
    SelectionOk(before, now, family, maxGapMs, InGroup(groupBy, where, keys[0]));
    GroupGrowth(before, now, history, family, groupBy, maxGapMs, where, keys);
    GroupsConserve(Samples(before, family), groupBy, where, keys);
    GroupsConserve(Samples(now, family), groupBy, where, keys);
    WiderFinite(Samples(before, family), InGroup(groupBy, where, keys[0]), where);
    WiderFinite(Samples(now, family), InGroup(groupBy, where, keys[0]), where);
    RateOfTotals(before, now, family, maxGapMs, where);
    HasFamily(now, family, InGroup(groupBy, where, keys[0]));
  }

  lemma HasFamily(s: Snapshot, family: string, where: Labels -> bool)
    requires SomeFinite(Select(Samples(s, family), where))
    ensures family in s.families
  {
  }

  lemma WiderFinite(samples: seq<Sample>, narrow: Labels -> bool, wide: Labels -> bool)
    requires SomeFinite(Select(samples, narrow))
    requires forall l :: narrow(l) ==> wide(l)
    ensures SomeFinite(Select(samples, wide))
  {
    FiniteMember(Select(samples, narrow));
    FiniteMember(Select(samples, wide));
    var s :| s in Select(samples, narrow) && s.value.Finite?;
    assert s in Select(samples, wide);
  }

  lemma RateOfTotals(before: Snapshot, now: Snapshot, family: string, maxGapMs: int, where: Labels -> bool)
    requires 0 < now.at - before.at <= maxGapMs
    requires SomeFinite(Select(Samples(before, family), where)) && SomeFinite(Select(Samples(now, family), where))
    requires Total(Select(Samples(now, family), where)) >= Total(Select(Samples(before, family), where))
    ensures SelectionRate(Some(before), now, family, maxGapMs, where)
         == Ok(PerSecond(Total(Select(Samples(now, family), where)) - Total(Select(Samples(before, family), where)),
                         now.at - before.at), now.at - before.at)
  {
    hide Select, Total, SomeFinite, PerSecond;
  }

  predicate Matched(s: Snapshot, family: string, where: Labels -> bool) { Select(Samples(s, family), where) != [] }

  /** The two whole-family readings agree when both snapshots have a match. Otherwise the family reading
      waits for a second sample where the partition reading counts a missing series as zero. */
  lemma SumRateVersusPartition(history: seq<Snapshot>, family: string, maxGapMs: int, where: Labels -> bool,
                               manifest: string -> string)
    requires PairHolds(history, family)
    ensures if Matched(history[|history| - 1], family, where) && Matched(history[|history| - 2], family, where)
            then SumRate(history, family, maxGapMs, where, manifest) == PartitionRate(history, family, maxGapMs, where)
            else SumRate(history, family, maxGapMs, where, manifest) == InsufficientSamples
  {
    hide Select, SomeFinite;
    SumOfNone();
  }

  //-------------------------------------------------------
  // What a group is
  //-------------------------------------------------------

  ghost predicate NulFree(l: Labels, groupBy: seq<string>)
  {
    forall n | n in groupBy :: '\0' !in LabelOf(l, n)
  }

  /** Two samples are in one group exactly when they agree on every grouping label, a missing one being empty; if
      no label value holds a NUL. */
  lemma {:induction false} SameGroupExactly(l: Labels, m: Labels, groupBy: seq<string>)
    requires NulFree(l, groupBy) && NulFree(m, groupBy)
    ensures GroupKey(l, groupBy) == GroupKey(m, groupBy) <==> forall n | n in groupBy :: LabelOf(l, n) == LabelOf(m, n)
  {
    if groupBy != [] {
      var name, rest := groupBy[0], groupBy[1..];
      var x, y := LabelOf(l, name), LabelOf(m, name);
      assert name in groupBy && forall n | n in rest :: n in groupBy;
      assert groupBy == [name] + rest;
      hide LabelOf;
      if |groupBy| == 1 {
        SameAfter(name + "=", x, y);
      } else {
        SameGroupExactly(l, m, rest);
        SameCut(name + "=", x, GroupKey(l, rest), y, GroupKey(m, rest));
      }
    }
  }

  lemma SameAfter(p: string, x: string, y: string)
    ensures p + x == p + y <==> x == y
  {
    if p + x == p + y { assert (p + x)[|p|..] == (p + y)[|p|..]; }
  }

  lemma SameCut(p: string, x: string, a: string, y: string, b: string)
    requires '\0' !in x && '\0' !in y
    ensures p + x + "\0" + a == p + y + "\0" + b <==> x == y && a == b
  {
    var s, t := x + "\0" + a, y + "\0" + b;
    assert p + x + "\0" + a == p + s && p + y + "\0" + b == p + t;
    SameAfter(p, s, t);
    SplitFirst(x, a, '\0');
    SplitFirst(y, b, '\0');
    assert ([x] + Split(a, '\0'))[0] == x && ([y] + Split(b, '\0'))[0] == y;
    assert s[|x| + 1..] == a && t[|y| + 1..] == b;
  }

  /** An input with one: two label sets that differ share a key. */
  lemma NulCollides()
    ensures var l, m := map["a" := "x\0b=y", "b" := "z"], map["a" := "x", "b" := "y\0b=z"];
            l != m && GroupKey(l, ["a", "b"]) == GroupKey(m, ["a", "b"])
  {
    var l, m := map["a" := "x\0b=y", "b" := "z"], map["a" := "x", "b" := "y\0b=z"];
    assert "a"[0] != "b"[0];
    assert ["a", "b"][1..] == ["b"];
    assert GroupKey(l, ["b"]) == "b" + "=" + "z" && GroupKey(m, ["b"]) == "b" + "=" + "y\0b=z";
    assert GroupKey(l, ["a", "b"]) == "a" + "=" + "x\0b=y" + "\0" + "b=z";
    assert GroupKey(m, ["a", "b"]) == "a" + "=" + "x" + "\0" + "b=y\0b=z";
    assert |l["a"]| != |m["a"]|;
  }
}
