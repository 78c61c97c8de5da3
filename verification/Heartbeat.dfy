/** `trackHeartbeat` and `heartbeatLiveness`: a writer's liveness from what one browser has seen of its beat. */
module Heartbeat {
  import opened Text

  const AUDIT_HEARTBEAT_INTERVAL_MS := 30_000

  /** One reading of the heartbeat family: absent, not a finite number, or the exported seconds. */
  datatype Reading = Missing | NotFinite | Beat(value: real)

  datatype Observation = Observation(reading: Reading, at: int)

  datatype Track = Track(value: real, firstSeenAt: int, sawAdvance: bool)

  function TrackHeartbeat(prev: Option<Track>, reading: Reading, at: int): Option<Track>
  {
    if !reading.Beat? then prev
    else if prev.Some? && prev.value.value == reading.value then prev
    else Some(Track(reading.value, at, prev.Some?))
  }

  datatype Liveness = Unknown | Never | Advancing | Watching(observedMs: int) | Stalled(sinceMs: int)

  function HeartbeatLiveness(track: Option<Track>, now: int, cadenceMs: nat): Liveness
  {
    if track.None? then Unknown
    else if track.value.value <= 0.0 then Never
    else
      var unchangedMs := now - track.value.firstSeenAt;
      if unchangedMs > 2 * AUDIT_HEARTBEAT_INTERVAL_MS + cadenceMs then Stalled(unchangedMs)
      else if track.value.sawAdvance then Advancing
      else Watching(unchangedMs)
  }

  /** The track after a sequence of observations. */
  function Tracked(obs: seq<Observation>): Option<Track>
  {
    if obs == [] then None
    else
      var last := obs[|obs| - 1];
      TrackHeartbeat(Tracked(obs[..|obs| - 1]), last.reading, last.at)
  }

  /** What the panel shows at the last observation. */
  function Shown(obs: seq<Observation>, cadenceMs: nat): Liveness
    requires obs != []
  {
    HeartbeatLiveness(Tracked(obs), obs[|obs| - 1].at, cadenceMs)
  }

  //-------------------------------------------------------
  // What a track means
  //-------------------------------------------------------

  /** From observation `i` on every beat read is `v`. */
  ghost predicate Constant(obs: seq<Observation>, i: nat, v: real)
  {
    forall k | i <= k < |obs| && obs[k].reading.Beat? :: obs[k].reading.value == v
  }

  /** No beat was read before observation `i`, or the last one read before it was not `v`. */
  ghost predicate Starts(obs: seq<Observation>, i: nat, v: real)
    requires i <= |obs|
  {
    var before := Tracked(obs[..i]);
    before.Some? ==> before.value.value != v
  }

  /** Observation `i` begins the run of equal beats that reaches the end. */
  ghost predicate RunStart(obs: seq<Observation>, i: nat, t: Track)
  {
    && i < |obs| && obs[i] == Observation(Beat(t.value), t.firstSeenAt)
    && Constant(obs, i, t.value) && Starts(obs, i, t.value)
    && (t.sawAdvance <==> exists k :: 0 <= k < i && obs[k].reading.Beat?)
  }

  lemma {:induction false} TrackedSome(obs: seq<Observation>)
    ensures Tracked(obs).Some? <==> exists k :: 0 <= k < |obs| && obs[k].reading.Beat?
  {
    if obs != [] {
      var n := |obs| - 1;
      TrackedSome(obs[..n]);
      if obs[n].reading.Beat? {
      } else if Tracked(obs[..n]).Some? {
        var k :| 0 <= k < n && obs[..n][k].reading.Beat?;
        assert obs[k].reading.Beat?;
      }
    }
  }

  /** The track's value is the last beat read, and its first-seen time is the start of the maximal
      run of that value; an advance was seen exactly when some beat was read before the run. */
  lemma {:induction false} FirstSeenIsRunStart(obs: seq<Observation>) returns (i: nat)
    requires Tracked(obs).Some?
    ensures RunStart(obs, i, Tracked(obs).value)
  {
    var n := |obs| - 1;
    var before, last := obs[..n], obs[n];
    if Tracked(before) == Tracked(obs) {
      i := FirstSeenIsRunStart(before);
      assert obs == before + [last];
      RunExtends(before, last, i, Tracked(obs).value);
    } else {
      i := n;
      TrackedSome(before);
      assert forall k | 0 <= k < n :: before[k] == obs[k];
    }
  }

  lemma RunExtends(before: seq<Observation>, last: Observation, i: nat, t: Track)
    requires RunStart(before, i, t) && (last.reading.Beat? ==> last.reading.value == t.value)
    ensures RunStart(before + [last], i, t)
    ensures before != [] ==> (before + [last])[..|before|] == before
  {
    var obs := before + [last];
    assert obs[..i] == before[..i];
    assert forall k | 0 <= k < |before| :: obs[k] == before[k];
    if t.sawAdvance {
      var k :| 0 <= k < i && before[k].reading.Beat?;
      assert obs[k].reading.Beat?;
    } else {
      forall k | 0 <= k < i
        ensures !obs[k].reading.Beat?
      {
        assert obs[k] == before[k];
      }
    }
  }

  /** A stall of `sinceMs` was seen: one beat read `sinceMs` ago, and no other beat since. */
  lemma StalledIsUnchanged(obs: seq<Observation>, cadenceMs: nat) returns (i: nat)
    requires obs != [] && Shown(obs, cadenceMs).Stalled?
    ensures i < |obs| && obs[i].reading.Beat? && Constant(obs, i, obs[i].reading.value)
    ensures obs[i].at == obs[|obs| - 1].at - Shown(obs, cadenceMs).sinceMs
  {
    i := FirstSeenIsRunStart(obs);
  }

  /** The value of a track was read. */
  lemma {:induction false} TrackedRead(obs: seq<Observation>) returns (k: nat)
    requires Tracked(obs).Some?
    ensures k < |obs| && obs[k].reading == Beat(Tracked(obs).value.value)
  {
    var n := |obs| - 1;
    if Tracked(obs[..n]) == Tracked(obs) { k := TrackedRead(obs[..n]); } else { k := n; }
  }

  /** Two different beats were read. */
  ghost predicate SawTwo(obs: seq<Observation>)
  {
    exists j, k | 0 <= j < |obs| && 0 <= k < |obs| ::
      obs[j].reading.Beat? && obs[k].reading.Beat? && obs[j].reading.value != obs[k].reading.value
  }

  lemma AdvanceSeen(obs: seq<Observation>)
    requires Tracked(obs).Some?
    ensures Tracked(obs).value.sawAdvance <==> SawTwo(obs)
  {
    var i := FirstSeenIsRunStart(obs);
    var v := Tracked(obs).value.value;
    if Tracked(obs).value.sawAdvance {
      var k :| 0 <= k < i && obs[k].reading.Beat?;
      TrackedSome(obs[..i]);
      assert obs[..i][k] == obs[k];
      var j := TrackedRead(obs[..i]);
      assert obs[..i][j] == obs[j];
      assert obs[i].reading.value == v != obs[j].reading.value;
    }
  }

  /** What the panel shows, by the readings: nothing known without a beat; never without a positive one last; and
      else, from the last beat read, first seen at observation `i`, a stall exactly when that is more than two beats
      and a poll ago, an advance exactly when it is not and another beat was read before, and watching otherwise. */
  lemma ShownExactly(obs: seq<Observation>, cadenceMs: nat) returns (i: nat)
    requires obs != []
    ensures Shown(obs, cadenceMs).Unknown? <==> forall k | 0 <= k < |obs| :: !obs[k].reading.Beat?
    ensures !Shown(obs, cadenceMs).Unknown? ==>
              && i < |obs| && obs[i].reading.Beat? && Constant(obs, i, obs[i].reading.value) && Starts(obs, i, obs[i].reading.value)
              && var span := obs[|obs| - 1].at - obs[i].at;
                 Shown(obs, cadenceMs) == if obs[i].reading.value <= 0.0 then Never
                                          else if span > 60_000 + cadenceMs then Stalled(span)
                                          else if SawTwo(obs) then Advancing else Watching(span)
  {
    hide SawTwo;
    TrackedSome(obs);
    i := 0;
    if Tracked(obs).Some? {
      i := FirstSeenIsRunStart(obs);
      AdvanceSeen(obs);
    }
  }

  //-------------------------------------------------------
  // A writer that keeps beating
  //-------------------------------------------------------

  /** The exported value changes within every interval of one beat. */
  ghost predicate Beats(writer: int -> real)
  {
    forall s, t :: t - s >= AUDIT_HEARTBEAT_INTERVAL_MS ==> writer(t) != writer(s)
  }

  /** Observation `k`, if it carries a beat, carries the value exported at `readAt[k]`, at most
      `delayMs` before it was received. */
  ghost predicate ReadFrom(obs: seq<Observation>, writer: int -> real, readAt: seq<int>, delayMs: nat)
  {
    && |readAt| == |obs|
    && forall k | 0 <= k < |obs| && obs[k].reading.Beat? ::
         && obs[k].reading.value == writer(readAt[k])
         && readAt[k] <= obs[k].at <= readAt[k] + delayMs
  }

  lemma {:induction false} LastBeat(obs: seq<Observation>, i: nat) returns (l: nat)
    requires i < |obs| && obs[i].reading.Beat?
    ensures i <= l < |obs| && obs[l].reading.Beat? && forall k | l < k < |obs| :: !obs[k].reading.Beat?
    decreases |obs| - i
  {
    l := i;
    if j :| i < j < |obs| && obs[j].reading.Beat? { l := LastBeat(obs, j); }
  }

  /** For a writer that beats at least every 30 s, with the last beat read at observation `l` and its run of
      equal beats begun at `i`: the run itself is shorter than a beat and the read delay, and a stall is shown
      exactly when the snapshots without a beat since have stretched it past two beats and the cadence. */
  lemma BeatingExactly(obs: seq<Observation>, writer: int -> real, readAt: seq<int>, delayMs: nat, cadenceMs: nat)
    returns (i: nat, l: nat)
    requires Tracked(obs).Some? && Beats(writer) && ReadFrom(obs, writer, readAt, delayMs)
    ensures i <= l < |obs| && RunStart(obs, i, Tracked(obs).value)
    ensures obs[l].reading.Beat? && forall k | l < k < |obs| :: !obs[k].reading.Beat?
    ensures obs[l].at - obs[i].at < AUDIT_HEARTBEAT_INTERVAL_MS + delayMs
    ensures var silence := obs[|obs| - 1].at - obs[l].at;
            Shown(obs, cadenceMs).Stalled? <==>
              obs[i].reading.value > 0.0 &&
              silence + (obs[l].at - obs[i].at) > 2 * AUDIT_HEARTBEAT_INTERVAL_MS + cadenceMs
  {
    i := FirstSeenIsRunStart(obs);
    l := LastBeat(obs, i);
    assert writer(readAt[l]) == writer(readAt[i]);
  }

  /** So it is never reported stalled by a snapshot that carries its beat, even when answers arrive up to a
      beat and a poll late. */
  lemma BeatingNeverStalls(obs: seq<Observation>, writer: int -> real, readAt: seq<int>, delayMs: nat, cadenceMs: nat)
    requires obs != [] && obs[|obs| - 1].reading.Beat?
    requires Beats(writer) && ReadFrom(obs, writer, readAt, delayMs)
    requires delayMs <= AUDIT_HEARTBEAT_INTERVAL_MS + cadenceMs
    ensures !Shown(obs, cadenceMs).Stalled?
  {
    TrackedSome(obs);
    var i, l := BeatingExactly(obs, writer, readAt, delayMs, cadenceMs);
  }

  /** Snapshots that stop carrying the family make a beating writer look stalled: the last reading must carry a beat. */
  lemma MissingReadingsStall(v: real, at: int, cadenceMs: nat)
    requires v > 0.0
    ensures var obs := [Observation(Beat(v), at), Observation(Missing, at + 60_001 + cadenceMs)];
            Shown(obs, cadenceMs) == Stalled(60_001 + cadenceMs)
  {
    var obs := [Observation(Beat(v), at), Observation(Missing, at + 60_001 + cadenceMs)];
    assert obs[..1] == [obs[0]] && obs[..1][..0] == [];
    assert Tracked(obs[..1]) == TrackHeartbeat(Tracked([]), obs[0].reading, at);
    assert Tracked(obs) == TrackHeartbeat(Tracked(obs[..1]), Missing, obs[1].at);
  }

  //-------------------------------------------------------
  // A writer that stops
  //-------------------------------------------------------

  /** From its first sight at observation `i`, the same positive beat is all that is read. */
  ghost predicate StopsAt(obs: seq<Observation>, i: nat, v: real)
  {
    && i < |obs| && v > 0.0 && obs[i].reading == Beat(v)
    && Starts(obs, i, v) && Constant(obs, i, v)
  }

  lemma {:induction false} StoppedTrack(obs: seq<Observation>, i: nat, v: real)
    requires StopsAt(obs, i, v)
    ensures Tracked(obs).Some? && Tracked(obs).value.value == v && Tracked(obs).value.firstSeenAt == obs[i].at
    decreases |obs|
  {
    var n := |obs| - 1;
    if i < n {
      var before := obs[..n];
      assert before[..i] == obs[..i] && before[i] == obs[i];
      assert forall k | 0 <= k < n :: before[k] == obs[k];
      StoppedTrack(before, i, v);
    }
  }

  /** Polls from observation `i` on come at most a cadence apart. */
  ghost predicate Polled(obs: seq<Observation>, i: nat, cadenceMs: nat)
  {
    forall k | i < k < |obs| :: obs[k - 1].at <= obs[k].at <= obs[k - 1].at + cadenceMs
  }

  /** The first poll past two beats plus the cadence. */
  lemma {:induction false} FirstPast(obs: seq<Observation>, i: nat, cadenceMs: nat, past: int) returns (k: nat)
    requires i < |obs| && Polled(obs, i, cadenceMs) && obs[i].at <= past < obs[|obs| - 1].at
    ensures i < k < |obs| && past < obs[k].at <= past + cadenceMs
    decreases |obs| - i
  {
    if obs[i + 1].at > past {
      k := i + 1;
    } else {
      k := FirstPast(obs, i + 1, cadenceMs, past);
    }
  }

  /** A writer that stops is reported within two beats, the cadence and one further poll of the first
      sight of its last value. */
  lemma StoppedIsReported(obs: seq<Observation>, i: nat, v: real, cadenceMs: nat) returns (k: nat)
    requires StopsAt(obs, i, v) && Polled(obs, i, cadenceMs)
    requires obs[|obs| - 1].at > obs[i].at + 2 * AUDIT_HEARTBEAT_INTERVAL_MS + cadenceMs
    ensures i < k < |obs| && Shown(obs[..k + 1], cadenceMs).Stalled?
    ensures obs[k].at - obs[i].at <= 2 * AUDIT_HEARTBEAT_INTERVAL_MS + 2 * cadenceMs
  {
    k := FirstPast(obs, i, cadenceMs, obs[i].at + 2 * AUDIT_HEARTBEAT_INTERVAL_MS + cadenceMs);
    var seen := obs[..k + 1];
    assert seen[..i] == obs[..i] && forall j | 0 <= j < |seen| :: seen[j] == obs[j];
    StoppedTrack(seen, i, v);
  }

  /** And not before: until then the panel never shows a stall. */
  lemma StoppedNotEarly(obs: seq<Observation>, i: nat, v: real, cadenceMs: nat)
    requires StopsAt(obs, i, v)
    ensures Shown(obs, cadenceMs).Stalled? <==>
            obs[|obs| - 1].at - obs[i].at > 2 * AUDIT_HEARTBEAT_INTERVAL_MS + cadenceMs
  {
    StoppedTrack(obs, i, v);
  }
}
