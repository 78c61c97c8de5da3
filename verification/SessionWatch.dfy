/** `useSessionWatch`: the idle and expiry timers of one mounted watcher, bound to one token. */
module SessionWatch {
  import opened Text

  const IDLE_LIMIT_MS := 15 * 60_000

  datatype Reason = Logout | Expired | Idle

  /** A call of `terminateSession`: when, why, and the token stored at that moment. */
  datatype Action = End(reason: Reason, at: int, stored: string) | Reload

  /** The watcher's variables, the clock, and the stored token; "" when there is none. */
  datatype State = State(now: int, stored: string, token: string, mounted: bool, ended: bool,
                         deadline: int, idle: Option<int>, expiry: Option<int>, log: seq<Action>)

  /** `clears`: the teardown this step starts, if any, empties the store before it returns. */
  datatype Event =
    | Activity(at: int, clears: bool)
    | Visibility(at: int, visible: bool, clears: bool)
    | IdleFires(at: int, clears: bool)
    | ExpiryFires(at: int, clears: bool)
    | Storage(at: int, ofToken: bool, clears: bool)
    | StoreChanges(at: int, stored: string)
    | Unmount(at: int)

  predicate Owns(s: State) { !s.ended && s.stored == s.token }

  function Terminate(s: State, reason: Reason, clears: bool): State
  {
    s.(log := s.log + [End(reason, s.now, s.stored)], stored := if clears then "" else s.stored)
  }

  function EndIdle(s: State, clears: bool): State
  {
    if Owns(s) then Terminate(s.(ended := true), Idle, clears) else s
  }

  function ScheduleIdle(s: State, clears: bool): State
  {
    var s := s.(idle := None);
    if !Owns(s) then s
    else if s.deadline - s.now <= 0 then EndIdle(s, clears)
    else s.(idle := Some(s.deadline))
  }

  /** Mounting with a stored token; `lifetime` is the delay to the proactive logout, None for a token that cannot be read. */
  function Mount(now: int, token: string, lifetime: Option<nat>, clears: bool): State
  {
    var s := State(now, token, token, true, false, now + IDLE_LIMIT_MS, None, None, []);
    ScheduleIdle(if lifetime.Some? then s.(expiry := Some(now + lifetime.value)) else Terminate(s, Expired, clears),
                 clears)
  }

  predicate Enabled(s: State, e: Event)
  {
    && s.now <= e.at
    && match e
       case StoreChanges(_, _) => true
       case IdleFires(_, _) => s.mounted && s.idle.Some? && s.idle.value <= e.at
       case ExpiryFires(_, _) => s.mounted && s.expiry.Some? && s.expiry.value <= e.at
       case _ => s.mounted
  }

  predicate Handles(s: State, e: Event) { e.Activity? && Owns(s) }

  function Step(s: State, e: Event): State
  {
    var s := s.(now := e.at);
    match e
    case Activity(at, clears) => if Owns(s) then ScheduleIdle(s.(deadline := at + IDLE_LIMIT_MS), clears) else s
    case Visibility(_, visible, clears) => if visible then ScheduleIdle(s, clears) else s
    case IdleFires(_, clears) => ScheduleIdle(s.(idle := None), clears)
    case ExpiryFires(_, clears) =>
      var s := s.(expiry := None);
      if Owns(s) then Terminate(s, Expired, clears) else s
    case Storage(_, ofToken, clears) =>
      if !ofToken then s
      else if s.stored != "" then (if s.stored != s.token then s.(log := s.log + [Reload]) else s)
      else Terminate(s, Logout, clears)
    case StoreChanges(_, stored) => s.(stored := stored)
    case Unmount(_) => s.(mounted := false, idle := None, expiry := None)
  }

  function Run(s: State, es: seq<Event>): State
    decreases es
  {
    if es == [] then s else Run(Step(s, es[0]), es[1..])
  }

  predicate Legal(s: State, es: seq<Event>)
    decreases es
  {
    es != [] ==> Enabled(s, es[0]) && Legal(Step(s, es[0]), es[1..])
  }

  /** When the last activity the watcher acted on happened; `since` before the first. */
  function LastHandled(s: State, es: seq<Event>, since: int): int
    decreases es
  {
    if es == [] then since
    else LastHandled(Step(s, es[0]), es[1..], if Handles(s, es[0]) then es[0].at else since)
  }

  //-------------------------------------------------------
  // The idle end
  //-------------------------------------------------------

  function Ends(reason: Reason, log: seq<Action>): nat
  {
    if log == [] then 0
    else
      var last := log[|log| - 1];
      Ends(reason, log[..|log| - 1]) + if last.End? && last.reason == reason then 1 else 0
  }

  /** What every step keeps. `last` is the last handled activity. */
  ghost predicate Inv(s: State, last: int)
  {
    && s.deadline == last + IDLE_LIMIT_MS && last <= s.now
    && Ends(Idle, s.log) == (if s.ended then 1 else 0)
    && (s.idle.Some? ==> s.mounted && !s.ended && s.idle.value == s.deadline)
    && (s.expiry.Some? ==> s.mounted)
  }

  function Next(s: State, e: Event, last: int): int { if Handles(s, e) then e.at else last }

  lemma Logged(log: seq<Action>, a: Action)
    ensures forall r :: Ends(r, log + [a]) == Ends(r, log) + if a.End? && a.reason == r then 1 else 0
  {
    assert (log + [a])[..|log|] == log;
  }

  lemma TerminateLogs(s: State, reason: Reason, clears: bool)
    ensures forall r :: Ends(r, Terminate(s, reason, clears).log) == Ends(r, s.log) + if reason == r then 1 else 0
  {
    Logged(s.log, End(reason, s.now, s.stored));
  }

  lemma ScheduleKeeps(s: State, last: int, clears: bool)
    requires Inv(s.(idle := None), last) && s.mounted
    ensures Inv(ScheduleIdle(s, clears), last)
  {
    hide Ends;
    TerminateLogs(s.(idle := None, ended := true), Idle, clears);
  }

  lemma StepKeeps(s: State, e: Event, last: int)
    requires Inv(s, last) && Enabled(s, e)
    ensures Inv(Step(s, e), Next(s, e, last))
  {
    hide Ends, ScheduleIdle;
    var s := s.(now := e.at);
    match e
    case Activity(at, clears) =>
      if Owns(s) { ScheduleKeeps(s.(deadline := at + IDLE_LIMIT_MS), at, clears); }
    case Visibility(_, visible, clears) =>
      if visible { ScheduleKeeps(s, last, clears); }
    case IdleFires(_, clears) => ScheduleKeeps(s.(idle := None), last, clears);
    case ExpiryFires(_, clears) => TerminateLogs(s.(expiry := None), Expired, clears);
    case Storage(_, _, clears) =>
      TerminateLogs(s, Logout, clears);
      Logged(s.log, Reload);
    case StoreChanges(_, _) =>
    case Unmount(_) =>
  }

  lemma {:induction false} RunKeeps(s: State, es: seq<Event>, last: int)
    requires Inv(s, last) && Legal(s, es)
    ensures Inv(Run(s, es), LastHandled(s, es, last))
    decreases es
  {
    if es != [] {
      hide Step, Enabled, Inv, Handles;
      StepKeeps(s, es[0], last);
      RunKeeps(Step(s, es[0]), es[1..], Next(s, es[0], last));
    }
  }

  lemma MountKeeps(now: int, token: string, lifetime: Option<nat>, clears: bool)
    ensures Inv(Mount(now, token, lifetime, clears), now)
  {
    hide ScheduleIdle;
    var s := State(now, token, token, true, false, now + IDLE_LIMIT_MS, None, None, []);
    if lifetime.Some? {
      ScheduleKeeps(s.(expiry := Some(now + lifetime.value)), now, clears);
    } else {
      TerminateLogs(s, Expired, clears);
      ScheduleKeeps(Terminate(s, Expired, clears), now, clears);
    }
  }

  /** The idle end happens at most once in any run, and the step that makes it comes no
      earlier than the idle limit after the last activity the watcher acted on. */
  lemma IdleEndsOnceAndNotEarly(now: int, token: string, lifetime: Option<nat>, clears: bool, es: seq<Event>, e: Event)
    requires Legal(Mount(now, token, lifetime, clears), es)
    requires Enabled(Run(Mount(now, token, lifetime, clears), es), e)
    ensures var s0 := Mount(now, token, lifetime, clears);
            var s, s' := Run(s0, es), Step(Run(s0, es), e);
            && Ends(Idle, s'.log) <= 1
            && (Ends(Idle, s'.log) > Ends(Idle, s.log) ==> e.at >= LastHandled(s0, es, now) + 900_000)
  {
    var s0 := Mount(now, token, lifetime, clears);
    MountKeeps(now, token, lifetime, clears);
    hide Mount;
    RunKeeps(s0, es, now);
    hide Run, LastHandled, Legal;
    StepKeeps(Run(s0, es), e, LastHandled(s0, es, now));
    NotEarly(Run(s0, es), e, LastHandled(s0, es, now));
  }

  lemma NotEarly(s: State, e: Event, last: int)
    requires Inv(s, last) && Enabled(s, e)
    ensures Ends(Idle, Step(s, e).log) > Ends(Idle, s.log) ==> e.at >= last + IDLE_LIMIT_MS
  {
    hide Ends;
    var s := s.(now := e.at);
    Logged(s.log, Reload);
    TerminateLogs(s, Logout, false);
    TerminateLogs(s.(expiry := None), Expired, false);
  }

  //-------------------------------------------------------
  // The idle timer
  //-------------------------------------------------------

  ghost predicate Unchanged(s: State, es: seq<Event>)
    decreases es
  {
    es != [] ==> Step(s, es[0]).stored == s.token && Unchanged(Step(s, es[0]), es[1..])
  }

  /** Exactly one idle timer is pending, and it is due at the deadline. */
  predicate Armed(s: State) { s.mounted && Owns(s) ==> s.idle == Some(s.deadline) }

  lemma StepArms(s: State, e: Event, last: int)
    requires Inv(s, last) && Enabled(s, e) && Armed(s) && s.stored == s.token
    ensures Armed(Step(s, e)) && Step(s, e).token == s.token
  {
    hide Ends;
  }

  lemma {:induction false} RunArms(s: State, es: seq<Event>, last: int)
    requires Inv(s, last) && Legal(s, es) && Armed(s) && s.stored == s.token && Unchanged(s, es)
    ensures Armed(Run(s, es))
    decreases es
  {
    if es != [] {
      StepArms(s, es[0], last);
      StepKeeps(s, es[0], last);
      hide Step, Enabled, Inv, Handles, Armed;
      RunArms(Step(s, es[0]), es[1..], Next(s, es[0], last));
    }
  }

  /** As long as the stored token stays the watcher's, a live watcher always has its one
      idle timer pending, due at the current deadline. */
  lemma AlwaysArmed(now: int, token: string, lifetime: Option<nat>, clears: bool, es: seq<Event>)
    requires var s := Mount(now, token, lifetime, clears); Legal(s, es) && s.stored == s.token && Unchanged(s, es)
    ensures Armed(Run(Mount(now, token, lifetime, clears), es))
  {
    hide Run, Legal, Unchanged;
    MountKeeps(now, token, lifetime, clears);
    RunArms(Mount(now, token, lifetime, clears), es, now);
  }

  //-------------------------------------------------------
  // Exactly when the timer is pending
  //-------------------------------------------------------

  /** Whether the timer has lapsed: a visible page or a firing timer that finds another session stored
      cancels it for good, and only a step that finds the watcher's own session arms it again. */
  predicate Lapses(s: State, e: Event, lapsed: bool)
  {
    if (e.Visibility? && e.visible) || e.IdleFires? then !Owns(s)
    else lapsed && !Handles(s, e)
  }

  predicate Lapsed(s: State, es: seq<Event>, lapsed: bool)
    decreases es
  {
    if es == [] then lapsed else Lapsed(Step(s, es[0]), es[1..], Lapses(s, es[0], lapsed))
  }

  /** A mounted watcher that has not ended has the timer due at its deadline, or has let it lapse. */
  predicate Tracks(s: State, lapsed: bool)
  {
    s.mounted && !s.ended ==> s.idle == if lapsed then None else Some(s.deadline)
  }

  lemma StepTracks(s: State, e: Event, lapsed: bool)
    requires Enabled(s, e) && Tracks(s, lapsed)
    ensures Tracks(Step(s, e), Lapses(s, e, lapsed))
  {
  }

  lemma {:induction false} RunTracks(s: State, es: seq<Event>, lapsed: bool)
    requires Legal(s, es) && Tracks(s, lapsed)
    ensures Tracks(Run(s, es), Lapsed(s, es, lapsed))
    decreases es
  {
    if es != [] {
      hide Step, Enabled, Tracks, Lapses;
      StepTracks(s, es[0], lapsed);
      RunTracks(Step(s, es[0]), es[1..], Lapses(s, es[0], lapsed));
    }
  }

  /** Mounting lapses only when an unreadable token is ended, and cleared, on the spot. */
  predicate LapsesAtMount(token: string, lifetime: Option<nat>, clears: bool) { lifetime.None? && clears && token != "" }

  /** Over any run the one idle timer of a live watcher is pending, due at the current deadline,
      exactly when it has not lapsed since the last step that armed it. */
  lemma ArmedExactly(now: int, token: string, lifetime: Option<nat>, clears: bool, es: seq<Event>)
    requires Legal(Mount(now, token, lifetime, clears), es)
    ensures var s0 := Mount(now, token, lifetime, clears);
            var s := Run(s0, es);
            Armed(s) <==> (s.mounted && Owns(s) ==> !Lapsed(s0, es, LapsesAtMount(token, lifetime, clears)))
  {
    var s0 := Mount(now, token, lifetime, clears);
    assert Tracks(s0, LapsesAtMount(token, lifetime, clears));
    hide Mount, Run, Lapsed, Legal;
    RunTracks(s0, es, LapsesAtMount(token, lifetime, clears));
  }

  /** A pending idle timer that fires in a live session ends it: there is no second chance. */
  lemma FiringEnds(now: int, token: string, lifetime: Option<nat>, clears: bool, es: seq<Event>, e: Event)
    requires Legal(Mount(now, token, lifetime, clears), es)
    requires var s := Run(Mount(now, token, lifetime, clears), es); Enabled(s, e) && e.IdleFires? && Owns(s)
    ensures var s := Run(Mount(now, token, lifetime, clears), es);
            Step(s, e).ended && Step(s, e).log == s.log + [End(Idle, e.at, s.token)]
  {
    var s0 := Mount(now, token, lifetime, clears);
    MountKeeps(now, token, lifetime, clears);
    hide Mount, Ends, Run, Legal, LastHandled;
    RunKeeps(s0, es, now);
  }

  /** An input that lapses: the token goes away, the page turns visible, and the token comes back. */
  lemma TokenAwayAndBack(now: int, token: string, other: string, lifetime: nat)
    requires other != token
    ensures var s := Mount(now, token, Some(lifetime), false);
            var es := [StoreChanges(now, other), Visibility(now, true, false), StoreChanges(now, token)];
            Legal(s, es) && Owns(Run(s, es)) && Run(s, es).mounted && Run(s, es).idle == None
  {
    var s := Mount(now, token, Some(lifetime), false);
    var s1 := Step(s, StoreChanges(now, other));
    var s2 := Step(s1, Visibility(now, true, false));
    var s3 := Step(s2, StoreChanges(now, token));
    var es := [StoreChanges(now, other), Visibility(now, true, false), StoreChanges(now, token)];
    assert es[1..] == [Visibility(now, true, false), StoreChanges(now, token)] && es[1..][1..] == [StoreChanges(now, token)];
    assert Run(s, es) == Run(s1, es[1..]) == Run(s2, es[1..][1..]) == Run(s3, []);
    assert Legal(s3, []) && Legal(s2, es[1..][1..]) && Legal(s1, es[1..]);
  }

  //-------------------------------------------------------
  // The expired end
  //-------------------------------------------------------

  /** The expiry timer is pending only for the due time, and only as long as nothing has expired. */
  ghost predicate Expiring(s: State, due: int)
  {
    && Ends(Expired, s.log) <= 1
    && (s.expiry.Some? ==> s.mounted && s.expiry.value == due && Ends(Expired, s.log) == 0)
  }

  lemma ScheduleExpires(s: State, clears: bool)
    ensures ScheduleIdle(s, clears).expiry == s.expiry && ScheduleIdle(s, clears).mounted == s.mounted
    ensures Ends(Expired, ScheduleIdle(s, clears).log) == Ends(Expired, s.log)
  {
    hide Ends;
    TerminateLogs(s.(idle := None, ended := true), Idle, clears);
  }

  lemma StepExpires(s: State, e: Event, due: int)
    requires Expiring(s, due) && Enabled(s, e)
    ensures Expiring(Step(s, e), due)
    ensures Ends(Expired, Step(s, e).log) == Ends(Expired, s.log) + if e.ExpiryFires? && Owns(s) then 1 else 0
  {
    hide Ends, ScheduleIdle;
    var s := s.(now := e.at);
    match e
    case Activity(at, clears) => ScheduleExpires(s.(deadline := at + IDLE_LIMIT_MS), clears);
    case Visibility(_, _, clears) => ScheduleExpires(s, clears);
    case IdleFires(_, clears) => ScheduleExpires(s.(idle := None), clears);
    case ExpiryFires(_, clears) => TerminateLogs(s.(expiry := None), Expired, clears);
    case Storage(_, _, clears) =>
      TerminateLogs(s, Logout, clears);
      Logged(s.log, Reload);
    case StoreChanges(_, _) =>
    case Unmount(_) =>
  }

  lemma {:induction false} RunExpires(s: State, es: seq<Event>, due: int)
    requires Expiring(s, due) && Legal(s, es)
    ensures Expiring(Run(s, es), due)
    decreases es
  {
    if es != [] {
      hide Step, Enabled, Expiring;
      StepExpires(s, es[0], due);
      RunExpires(Step(s, es[0]), es[1..], due);
    }
  }

  lemma MountExpires(now: int, token: string, lifetime: Option<nat>, clears: bool)
    ensures var s := Mount(now, token, lifetime, clears);
            && Expiring(s, now + if lifetime.Some? then lifetime.value else 0)
            && (s.expiry.Some? <==> lifetime.Some?) && Ends(Expired, s.log) == if lifetime.Some? then 0 else 1
  {
    hide ScheduleIdle;
    var s := State(now, token, token, true, false, now + IDLE_LIMIT_MS, None, None, []);
    if lifetime.Some? {
      ScheduleExpires(s.(expiry := Some(now + lifetime.value)), clears);
    } else {
      hide Ends;
      TerminateLogs(s, Expired, clears);
      assert Ends(Expired, []) == 0 by { EmptyLog(); }
      ScheduleExpires(Terminate(s, Expired, clears), clears);
    }
  }

  lemma EmptyLog()
    ensures Ends(Expired, []) == 0
  {
  }

  /** The expired end happens at most once in any run: at the mount for a token that cannot be read, or
      else at the step in which the timer fires in a session of the watcher's own, which is no earlier than
      the token's lifetime after the mount. */
  lemma ExpiresOnceAndNotEarly(now: int, token: string, lifetime: Option<nat>, clears: bool, es: seq<Event>, e: Event)
    requires Legal(Mount(now, token, lifetime, clears), es)
    requires Enabled(Run(Mount(now, token, lifetime, clears), es), e)
    ensures var s0 := Mount(now, token, lifetime, clears);
            var s, s' := Run(s0, es), Step(Run(s0, es), e);
            && Ends(Expired, s0.log) == (if lifetime.Some? then 0 else 1) && Ends(Expired, s'.log) <= 1
            && (Ends(Expired, s'.log) > Ends(Expired, s.log) <==> e.ExpiryFires? && Owns(s))
            && (Ends(Expired, s'.log) > Ends(Expired, s.log) ==> lifetime.Some? && e.at >= now + lifetime.value)
  {
    var s0, due := Mount(now, token, lifetime, clears), now + if lifetime.Some? then lifetime.value else 0;
    MountExpires(now, token, lifetime, clears);
    hide Mount, Ends;
    RunExpires(s0, es, due);
    if lifetime.None? { NoExpiry(s0, es); }
    hide Run, Legal;
    StepExpires(Run(s0, es), e, due);
  }

  lemma {:induction false} NoExpiry(s: State, es: seq<Event>)
    requires s.expiry.None?
    ensures Run(s, es).expiry.None?
    decreases es
  {
    if es != [] { NoExpiry(Step(s, es[0]), es[1..]); }
  }

  //-------------------------------------------------------
  // Whose session ends
  //-------------------------------------------------------

  /** An idle or expired end met the watcher's own token; a logout met an empty store. */
  ghost predicate OwnEnds(s: State)
  {
    forall i | 0 <= i < |s.log| && s.log[i].End? ::
      if s.log[i].reason == Logout then s.log[i].stored == "" else s.log[i].stored == s.token
  }

  lemma StepOwn(s: State, e: Event)
    requires OwnEnds(s)
    ensures OwnEnds(Step(s, e)) && Step(s, e).token == s.token
  {
  }

  lemma {:induction false} RunOwn(s: State, es: seq<Event>)
    requires OwnEnds(s)
    ensures OwnEnds(Run(s, es)) && Run(s, es).token == s.token
    decreases es
  {
    if es != [] {
      hide Step, OwnEnds;
      StepOwn(s, es[0]);
      RunOwn(Step(s, es[0]), es[1..]);
    }
  }

  /** No timer armed for one token ever ends a session stored under another. */
  lemma EndsOnlyItsOwn(now: int, token: string, lifetime: Option<nat>, clears: bool, es: seq<Event>)
    ensures var s := Run(Mount(now, token, lifetime, clears), es); OwnEnds(s) && s.token == token
  {
    hide Run;
    RunOwn(Mount(now, token, lifetime, clears), es);
  }

  //-------------------------------------------------------
  // Following other tabs
  //-------------------------------------------------------

  /** A mounted watcher, ended or not, that hears of the token key follows the store: it logs out over an empty
      one, reloads over another session, and does nothing over its own. A change of another key is none of its business. */
  lemma StorageFollows(now: int, token: string, lifetime: Option<nat>, clears: bool, es: seq<Event>, e: Event)
    requires var s := Run(Mount(now, token, lifetime, clears), es); Enabled(s, e) && e.Storage?
    ensures var s := Run(Mount(now, token, lifetime, clears), es);
            Step(s, e).log == s.log + if !e.ofToken || s.stored == token != "" then []
                                      else if s.stored == "" then [End(Logout, e.at, "")]
                                      else [Reload]
  {
    EndsOnlyItsOwn(now, token, lifetime, clears, es);
    hide Run, Mount;
  }

  //-------------------------------------------------------
  // The implementation
  //-------------------------------------------------------

  class Watch {
    const token: string
    var now: int
    var stored: string
    var mounted: bool
    var ended: bool
    var deadline: int
    var idleTimer: Option<int>
    var expiryTimer: Option<int>
    var log: seq<Action>

    function View(): State
      reads this
    {
      State(now, stored, token, mounted, ended, deadline, idleTimer, expiryTimer, log)
    }

    constructor (now: int, token: string, lifetime: Option<nat>, clears: bool)
      ensures View() == Mount(now, token, lifetime, clears)
    {
      this.token, this.now, stored := token, now, token;
      mounted, ended, deadline, idleTimer, expiryTimer, log := true, false, now + IDLE_LIMIT_MS, None, None, [];
      new;
      if lifetime.Some? {
        expiryTimer := Some(now + lifetime.value);
      } else {
        TerminateSession(Expired, clears);
      }
      Schedule(clears);
    }

    method TerminateSession(reason: Reason, clears: bool)
      modifies `log, `stored
      ensures View() == Terminate(old(View()), reason, clears)
    {
      log := log + [End(reason, now, stored)];
      if clears { stored := ""; }
    }

    method Schedule(clears: bool)
      modifies `idleTimer, `ended, `log, `stored
      ensures View() == ScheduleIdle(old(View()), clears)
    {
      idleTimer := None;
      if ended || stored != token { return; }
      var remaining := deadline - now;
      if remaining <= 0 {
        ended := true;
        TerminateSession(Idle, clears);
      } else {
        idleTimer := Some(now + remaining);
      }
    }

    method OnActivity(at: int, clears: bool)
      requires mounted
      modifies this
      ensures View() == Step(old(View()), Activity(at, clears))
    {
      now := at;
      if ended || stored != token { return; }
      deadline := now + IDLE_LIMIT_MS;
      Schedule(clears);
    }

    method OnVisible(at: int, visible: bool, clears: bool)
      requires mounted
      modifies this
      ensures View() == Step(old(View()), Visibility(at, visible, clears))
    {
      now := at;
      if visible { Schedule(clears); }
    }

    method OnIdleTimer(at: int, clears: bool)
      requires mounted && idleTimer.Some? && idleTimer.value <= at
      modifies this
      ensures View() == Step(old(View()), IdleFires(at, clears))
    {
      now := at;
      Schedule(clears);
    }

    method OnExpiryTimer(at: int, clears: bool)
      requires mounted && expiryTimer.Some? && expiryTimer.value <= at
      modifies this
      ensures View() == Step(old(View()), ExpiryFires(at, clears))
    {
      now := at;
      expiryTimer := None;
      if !ended && stored == token { TerminateSession(Expired, clears); }
    }

    method OnStorage(at: int, ofToken: bool, clears: bool)
      requires mounted
      modifies this
      ensures View() == Step(old(View()), Storage(at, ofToken, clears))
    {
      now := at;
      if !ofToken { return; }
      if stored != "" {
        if stored != token { log := log + [Reload]; }
        return;
      }
      TerminateSession(Logout, clears);
    }

    method OnUnmount(at: int)
      modifies this
      ensures View() == Step(old(View()), Unmount(at))
    {
      now := at;
      mounted, idleTimer, expiryTimer := false, None, None;
    }
  }
}
