/** `useInstanceLogPaging`: paging, live tail, refresh and file selection over one log endpoint. */
module LogPaging {
  import opened Text

  /** A query key: the instance and the options. The empty text stands for an absent keyword, cursor or file:
      the code treats both alike. */
  datatype Query = Query(instance: string, keyword: string, cursor: string, file: string, reload: nat, polling: bool)

  /** One page of a backwards scan; `id` is the identity of the response object. */
  datatype Page = Page(id: nat, query: Query, logs: seq<string>, next: string, hasMore: bool,
                       totalSize: Option<nat>, scanned: Option<nat>)

  datatype State = State(rawLogs: seq<string>, nextCursor: string, hasMore: bool, isLoadingMore: bool,
                         totalSize: nat, scannedBytes: nat, query: Query, liveTail: bool, keyword: string,
                         applied: Option<nat>)

  function Start(instance: string): State
  {
    State([], "", false, false, 0, 0, Query(instance, "", "", "", 0, false), false, "", None)
  }

  /** The handlers run with the values their closure captured, which may be out of date. */
  datatype Event =
    | Response(page: Page)
    | Settled
    | ApplyKeyword(keyword: string)
    | LoadMore(nextCursor: string, isLoadingMore: bool)
    | Refresh
    | ToggleLiveTail(liveTail: bool)
    | SelectFile(file: string)
    // the page follows the instance in its address without a remount
    | SelectInstance(name: string)

  function Bytes(v: Option<nat>): nat { if v.Some? then v.value else 0 }

  function Apply(s: State, p: Page): State
  {
    if s.applied == Some(p.id) then s
    else
      var appends := s.query.cursor != "";
      s.(applied := Some(p.id),
         rawLogs := if appends then s.rawLogs + p.logs else p.logs,
         nextCursor := p.next, hasMore := p.hasMore, isLoadingMore := false,
         totalSize := if p.totalSize.Some? then p.totalSize.value else s.totalSize,
         scannedBytes := if appends then s.scannedBytes + Bytes(p.scanned) else Bytes(p.scanned))
  }

  function Step(s: State, e: Event): State
  {
    match e
    case Response(page) => Apply(s, page)
    case Settled => s.(isLoadingMore := false)
    case ApplyKeyword(keyword) =>
      s.(query := s.query.(keyword := keyword, cursor := ""), keyword := keyword, nextCursor := "", hasMore := false)
    case LoadMore(nextCursor, isLoadingMore) =>
      if nextCursor == "" || isLoadingMore then s
      else s.(liveTail := false, isLoadingMore := true, query := s.query.(cursor := nextCursor, polling := false))
    case Refresh =>
      s.(nextCursor := "", hasMore := false, query := s.query.(cursor := "", reload := s.query.reload + 1))
    case ToggleLiveTail(liveTail) =>
      var next := !liveTail;
      var s := if next then s.(nextCursor := "", hasMore := false) else s;
      s.(liveTail := next, query := s.query.(cursor := "", polling := next))
    case SelectFile(file) =>
      s.(liveTail := false, nextCursor := "", hasMore := false,
         query := s.query.(file := file, cursor := "", polling := false, reload := s.query.reload + 1))
    case SelectInstance(name) => s.(query := s.query.(instance := name))
  }

  function Run(s: State, es: seq<Event>): State
    decreases es
  {
    if es == [] then s else Run(Step(s, es[0]), es[1..])
  }

  //-------------------------------------------------------
  // Live tail
  //-------------------------------------------------------

  predicate LiveIsPolling(s: State)
  {
    s.liveTail == s.query.polling && (s.query.polling ==> s.query.cursor == "")
  }

  /** Whatever the handlers captured and whatever responses arrive, the Live switch shows whether the
      query polls, and a polling query follows no cursor. */
  lemma {:induction false} LiveTailIsPolling(s: State, es: seq<Event>)
    requires LiveIsPolling(s)
    ensures LiveIsPolling(Run(s, es))
    decreases es
  {
    if es != [] {
      LiveTailIsPolling(Step(s, es[0]), es[1..]);
    }
  }

  //-------------------------------------------------------
  // The scan behind the loaded lines
  //-------------------------------------------------------

  /** The pages applied since the last one read without a cursor, and whether the current
      key has had its page. */
  datatype Track = Track(scan: seq<Page>, served: bool)

  function Observe(t: Track, s: State, e: Event): Track
  {
    if e.Response? then
      if s.applied == Some(e.page.id) then t
      else Track(if s.query.cursor == "" then [e.page] else t.scan + [e.page], true)
    else t.(served := t.served && Step(s, e).query == s.query)
  }

  function TrackOf(t: Track, s: State, es: seq<Event>): Track
    decreases es
  {
    if es == [] then t else TrackOf(Observe(t, s, es[0]), Step(s, es[0]), es[1..])
  }

  function Lines(scan: seq<Page>): seq<string>
  {
    if scan == [] then [] else Lines(scan[..|scan| - 1]) + scan[|scan| - 1].logs
  }

  function ScannedBytes(scan: seq<Page>): nat
  {
    if scan == [] then 0 else ScannedBytes(scan[..|scan| - 1]) + Bytes(scan[|scan| - 1].scanned)
  }

  predicate SameFilters(a: Query, b: Query) { a.keyword == b.keyword && a.file == b.file && a.reload == b.reload }

  predicate SameSource(a: Query, b: Query) { a.instance == b.instance && SameFilters(a, b) }

  /** `scan` starts at the newest page and follows every cursor it was given, of one instance, keyword, file
      and reload: it skips and doubles no page. */
  ghost predicate Chained(scan: seq<Page>)
  {
    && (scan != [] ==> scan[0].query.cursor == "")
    && (forall i | 0 < i < |scan| :: Follows(scan[i - 1], scan[i]))
  }

  predicate Follows(a: Page, b: Page)
  {
    a.next != "" && b.query.cursor == a.next && SameSource(a.query, b.query)
  }

  /** `cursor` is where the scan goes on, under the key's instance, keyword, file and reload. */
  predicate Continues(scan: seq<Page>, q: Query, cursor: string)
  {
    scan != [] && scan[|scan| - 1].next == cursor && SameSource(scan[|scan| - 1].query, q)
  }

  lemma Snoc(scan: seq<Page>, p: Page)
    ensures Lines(scan + [p]) == Lines(scan) + p.logs
    ensures ScannedBytes(scan + [p]) == ScannedBytes(scan) + Bytes(p.scanned)
  {
    assert (scan + [p])[..|scan|] == scan;
  }

  lemma First(p: Page)
    ensures Lines([p]) == p.logs && ScannedBytes([p]) == Bytes(p.scanned)
    ensures Chained([p]) <==> p.query.cursor == ""
  {
    Snoc([], p);
    assert [] + [p] == [p];
  }

  lemma ChainSnoc(scan: seq<Page>, p: Page)
    requires p.query.cursor != ""
    ensures Chained(scan + [p]) <==> Chained(scan) && Continues(scan, p.query, p.query.cursor)
  {
    var longer, n := scan + [p], |scan|;
    assert longer[n] == p && forall i | 0 <= i < n :: longer[i] == scan[i];
    if Chained(longer) {
      if n > 0 { assert Follows(longer[n - 1], longer[n]); }
      forall i | 0 < i < n
        ensures Follows(scan[i - 1], scan[i])
      {
        assert Follows(longer[i - 1], longer[i]);
      }
    }
  }

  //-------------------------------------------------------
  // What every run shows
  //-------------------------------------------------------

  ghost predicate ShowsScan(t: Track, s: State)
  {
    s.rawLogs == Lines(t.scan) && s.scannedBytes == ScannedBytes(t.scan)
  }

  predicate Applies(s: State, e: Event) { e.Response? && s.applied != Some(e.page.id) }

  /** Whether the scan is broken: an appended page breaks it unless the scan goes on at the key's cursor; a
      page read without a cursor starts a new one. */
  predicate Breaks(t: Track, s: State, e: Event, broken: bool)
  {
    if Applies(s, e) then s.query.cursor != "" && (broken || !Continues(t.scan, s.query, s.query.cursor)) else broken
  }

  predicate Broken(t: Track, s: State, es: seq<Event>, broken: bool)
    decreases es
  {
    if es == [] then broken else Broken(Observe(t, s, es[0]), Step(s, es[0]), es[1..], Breaks(t, s, es[0], broken))
  }

  /** Every response belongs to the key it is applied under. */
  predicate Belong(s: State, es: seq<Event>)
    decreases es
  {
    es != [] ==> (es[0].Response? ==> es[0].page.query == s.query) && Belong(Step(s, es[0]), es[1..])
  }

  lemma StepShows(t: Track, s: State, e: Event, broken: bool)
    requires ShowsScan(t, s) && (Chained(t.scan) <==> !broken) && (e.Response? ==> e.page.query == s.query)
    ensures ShowsScan(Observe(t, s, e), Step(s, e))
    ensures Chained(Observe(t, s, e).scan) <==> !Breaks(t, s, e, broken)
  {
    hide Lines, ScannedBytes, Chained, Continues;
    if Applies(s, e) {
      First(e.page);
      Snoc(t.scan, e.page);
      if s.query.cursor != "" { ChainSnoc(t.scan, e.page); }
    }
  }

  lemma {:induction false} RunShows(t: Track, s: State, es: seq<Event>, broken: bool)
    requires ShowsScan(t, s) && (Chained(t.scan) <==> !broken) && Belong(s, es)
    ensures ShowsScan(TrackOf(t, s, es), Run(s, es))
    ensures Chained(TrackOf(t, s, es).scan) <==> !Broken(t, s, es, broken)
    decreases es
  {
    if es != [] {
      hide ShowsScan, Chained, Observe, Step, Breaks;
      StepShows(t, s, es[0], broken);
      RunShows(Observe(t, s, es[0]), Step(s, es[0]), es[1..], Breaks(t, s, es[0], broken));
    }
  }

  const NO_PAGES := Track([], false)

  /** Over every run the loaded lines are the pages of the current scan in order and the scanned bytes their
      sum; and the scan skips and doubles no page exactly when no page since the last rewind was appended
      under a cursor at which the scan did not go on. */
  lemma LoadedIsTheScan(instance: string, es: seq<Event>)
    requires Belong(Start(instance), es)
    ensures var t, s := TrackOf(NO_PAGES, Start(instance), es), Run(Start(instance), es);
            && s.rawLogs == Lines(t.scan) && s.scannedBytes == ScannedBytes(t.scan)
            && (Chained(t.scan) <==> !Broken(NO_PAGES, Start(instance), es, false))
  {
    RunShows(NO_PAGES, Start(instance), es, false);
  }

  //-------------------------------------------------------
  // Which handlers set the scan adrift
  //-------------------------------------------------------

  /** The key waits for a page at a cursor at which the scan does not go on. */
  predicate Adrift(t: Track, s: State)
  {
    s.query.cursor != "" && !t.served && !Continues(t.scan, s.query, s.query.cursor)
  }

  /** A response belongs to the current key, and a key with a cursor is served once. A load-more that goes
      ahead captured the cursor where the loaded scan goes on, or asks for the page it already has. Another
      instance is chosen only while no cursor is set. Every other handler may be out of date. */
  predicate Expected(t: Track, s: State, e: Event)
  {
    match e
    case Response(page) => page.query == s.query && (s.query.cursor != "" && t.served ==> s.applied == Some(page.id))
    case LoadMore(nextCursor, isLoadingMore) =>
      || nextCursor == "" || isLoadingMore || Continues(t.scan, s.query, nextCursor)
      || (t.served && Step(s, e).query == s.query)
    case SelectInstance(name) => name == s.query.instance || s.query.cursor == ""
    case _ => true
  }

  predicate AllExpected(t: Track, s: State, es: seq<Event>)
    decreases es
  {
    es != [] ==> Expected(t, s, es[0]) && AllExpected(Observe(t, s, es[0]), Step(s, es[0]), es[1..])
  }

  ghost predicate Inv(t: Track, s: State)
  {
    && ShowsScan(t, s) && Chained(t.scan) && !Adrift(t, s)
    && (s.nextCursor != "" ==> t.scan != [] && t.scan[|t.scan| - 1].next == s.nextCursor
                               && SameFilters(t.scan[|t.scan| - 1].query, s.query))
    && (s.query.cursor != "" && t.served ==> t.scan != [] && t.scan[|t.scan| - 1].query == s.query)
  }

  /** A handler sets the scan adrift exactly when it is not expected: a load-more with a cursor at which the
      scan does not go on, or another instance chosen under a cursor. */
  lemma AdriftExactly(t: Track, s: State, e: Event)
    requires Inv(t, s) && !e.Response?
    ensures Adrift(Observe(t, s, e), Step(s, e)) <==> !Expected(t, s, e)
  {
    hide Lines, ScannedBytes, Chained;
  }

  lemma StepKeeps(t: Track, s: State, e: Event)
    requires Inv(t, s) && Expected(t, s, e)
    ensures Inv(Observe(t, s, e), Step(s, e))
  {
    hide Lines, ScannedBytes, Chained;
    StepShows(t, s, e, false);
    if !e.Response? { AdriftExactly(t, s, e); }
  }

  lemma {:induction false} RunKeeps(t: Track, s: State, es: seq<Event>)
    requires Inv(t, s) && AllExpected(t, s, es)
    ensures Inv(TrackOf(t, s, es), Run(s, es))
    decreases es
  {
    if es != [] {
      hide Inv, Expected, Observe, Step;
      StepKeeps(t, s, es[0]);
      RunKeeps(Observe(t, s, es[0]), Step(s, es[0]), es[1..]);
    }
  }

  /** So a run of expected events never skips or doubles a page. */
  lemma ExpectedRunsChain(instance: string, es: seq<Event>)
    requires AllExpected(NO_PAGES, Start(instance), es)
    ensures Inv(TrackOf(NO_PAGES, Start(instance), es), Run(Start(instance), es))
  {
    RunKeeps(NO_PAGES, Start(instance), es);
  }

  /** A load-more that runs with the current values is expected exactly when it does nothing or the loaded
      lines are of the current instance. */
  lemma CurrentIsExpected(t: Track, s: State)
    requires Inv(t, s)
    ensures Expected(t, s, LoadMore(s.nextCursor, s.isLoadingMore)) <==>
            s.nextCursor == "" || s.isLoadingMore || t.scan[|t.scan| - 1].query.instance == s.query.instance
  {
    hide Lines, ScannedBytes, Chained;
  }

  /** Once a handler has set the scan adrift, the page that answers breaks it. */
  lemma AdriftBreaks(t: Track, s: State, p: Page)
    requires Chained(t.scan)
    requires s.query.cursor != "" && p.query == s.query && s.applied != Some(p.id)
    ensures Chained(Observe(t, s, Response(p)).scan) <==> Continues(t.scan, s.query, s.query.cursor)
  {
    ChainSnoc(t.scan, p);
  }

  /** An input: with one page followed by another of instance `a`, choosing `b` appends a page of `b` to the
      lines of `a`. */
  lemma InstanceUnderCursor(a: string, b: string, p0: Page, p1: Page, p2: Page)
    requires a != b && p0.next != "" && p0.id != p1.id && p1.id != p2.id
    requires p0.query == Query(a, "", "", "", 0, false) && p1.query == p0.query.(cursor := p0.next)
    requires p2.query == p1.query.(instance := b)
    ensures var es := [Response(p0), LoadMore(p0.next, false), Response(p1), SelectInstance(b), Response(p2)];
            && Belong(Start(a), es) && Run(Start(a), es).rawLogs == p0.logs + p1.logs + p2.logs
            && !Chained(TrackOf(NO_PAGES, Start(a), es).scan)
  {
    var e0, e1, e2, e3, e4 := Response(p0), LoadMore(p0.next, false), Response(p1), SelectInstance(b), Response(p2);
    var es := [e0, e1, e2, e3, e4];
    assert es[1..] == [e1, e2, e3, e4] && es[1..][1..] == [e2, e3, e4] && es[1..][1..][1..] == [e3, e4];
    assert es[1..][1..][1..][1..] == [e4] && es[1..][1..][1..][1..][1..] == [];
    var s1 := Step(Start(a), e0);
    var s2 := Step(s1, e1);
    var s3 := Step(s2, e2);
    var s4 := Step(s3, e3);
    var t1 := Observe(NO_PAGES, Start(a), e0);
    var t2 := Observe(t1, s1, e1);
    var t3 := Observe(t2, s2, e2);
    var t4 := Observe(t3, s3, e3);
    Unfold(NO_PAGES, Start(a), es);
    Unfold(t1, s1, es[1..]);
    Unfold(t2, s2, es[1..][1..]);
    Unfold(t3, s3, [e3, e4]);
    Unfold(t4, s4, [e4]);
    assert t4.scan == [p0] + [p1];
    assert Observe(t4, s4, e4).scan == [p0, p1] + [p2];
    ChainSnoc([p0, p1], p2);
  }

  lemma Unfold(t: Track, s: State, es: seq<Event>)
    requires es != []
    ensures Run(s, es) == Run(Step(s, es[0]), es[1..])
    ensures TrackOf(t, s, es) == TrackOf(Observe(t, s, es[0]), Step(s, es[0]), es[1..])
    ensures |es| == 1 ==> Run(s, es) == Step(s, es[0]) && TrackOf(t, s, es) == Observe(t, s, es[0])
    ensures Belong(s, es) <==> (es[0].Response? ==> es[0].page.query == s.query) && (|es| > 1 ==> Belong(Step(s, es[0]), es[1..]))
  {
  }

  //-------------------------------------------------------
  // Progress
  //-------------------------------------------------------

  /** Loading more with the current values, over lines of the current instance, continues the scan by the
      page at its end: nothing is lost and the invariant is kept. */
  lemma LoadMoreAppends(t: Track, s: State, p: Page)
    requires Inv(t, s) && s.nextCursor != "" && !s.isLoadingMore && s.applied != Some(p.id)
    requires t.scan[|t.scan| - 1].query.instance == s.query.instance
    requires p.query == Step(s, LoadMore(s.nextCursor, false)).query && p.query != s.query
    ensures var e := LoadMore(s.nextCursor, false);
            var t1, s1 := Observe(t, s, e), Step(s, e);
            var t2, s2 := Observe(t1, s1, Response(p)), Step(s1, Response(p));
            && t2.scan == t.scan + [p] && Inv(t2, s2) && s2.rawLogs == s.rawLogs + p.logs && s2.nextCursor == p.next
  {
    hide Lines, ScannedBytes, Chained;
    var e := LoadMore(s.nextCursor, false);
    CurrentIsExpected(t, s);
    StepKeeps(t, s, e);
    StepKeeps(Observe(t, s, e), Step(s, e), Response(p));
  }

  predicate Rewinds(e: Event) { e.Refresh? || e.ApplyKeyword? || e.SelectFile? || e.ToggleLiveTail? }

  /** A rewind asks for a page exactly when it changes the key: a refresh and a file always, a keyword or
      the live switch when they change it or a cursor was set. */
  predicate Asks(s: State, e: Event)
    requires Rewinds(e)
  {
    match e
    case ApplyKeyword(keyword) => keyword != s.query.keyword || s.query.cursor != ""
    case ToggleLiveTail(liveTail) => liveTail == s.query.polling || s.query.cursor != ""
    case _ => true
  }

  /** Every rewind keeps the lines and clears the cursor. If it asks for a page, that page replaces them. A
      keyword that asks for none leaves paging stuck: no load-more goes ahead, though lines are loaded. */
  lemma RewindReplaces(t: Track, s: State, e: Event, p: Page)
    requires Inv(t, s) && Rewinds(e) && s.applied != Some(p.id)
    ensures var t1, s1 := Observe(t, s, e), Step(s, e);
            && s1.query.cursor == "" && s1.rawLogs == s.rawLogs && Inv(t1, s1)
            && (s1.query != s.query <==> Asks(s, e))
            && (e.ApplyKeyword? && !Asks(s, e) ==> forall loading :: Step(s1, LoadMore(s1.nextCursor, loading)) == s1)
            && (p.query == s1.query ==>
                  Observe(t1, s1, Response(p)).scan == [p] && Inv(Observe(t1, s1, Response(p)), Step(s1, Response(p))))
  {
    hide Lines, ScannedBytes, Chained;
    StepKeeps(t, s, e);
    if p.query == Step(s, e).query { StepKeeps(Observe(t, s, e), Step(s, e), Response(p)); }
  }

  /** A second delivery under the same cursor, as a new response object, doubles the page. */
  lemma SecondDeliveryDoubles(s: State, p: Page, again: Page)
    requires s.query.cursor != "" && p.query == s.query && again == p.(id := again.id)
    requires s.applied != Some(p.id) && p.id != again.id
    ensures Run(s, [Response(p), Response(again)]).rawLogs == s.rawLogs + p.logs + p.logs
  {
    var es := [Response(p), Response(again)];
    var s1 := Step(s, es[0]);
    assert es[1..] == [Response(again)] && es[1..][1..] == [];
    assert Run(s1, es[1..]) == Run(Step(s1, es[1..][0]), []);
  }

  /** One load at a time: a load-more that goes ahead holds back the next one until its page, or the end of a
      failed fetch, comes. */
  lemma OneLoadAtATime(s: State, p: Page)
    requires s.nextCursor != "" && !s.isLoadingMore && s.applied != Some(p.id)
    ensures var s1 := Step(s, LoadMore(s.nextCursor, s.isLoadingMore));
            && Step(s1, LoadMore(s1.nextCursor, s1.isLoadingMore)) == s1 && s1.query.cursor == s.nextCursor
            && Step(s1, Settled) == s1.(isLoadingMore := false) && !Step(s1, Response(p)).isLoadingMore
  {
  }

  //-------------------------------------------------------
  // What is asked for, and what is shown of it
  //-------------------------------------------------------

  /** The operator's choices so far: the instance, keyword and file chosen last. */
  datatype Chosen = Chosen(instance: string, keyword: string, file: string)

  function Choices(c: Chosen, es: seq<Event>): Chosen
    decreases es
  {
    if es == [] then c
    else
      var c := match es[0]
               case SelectInstance(name) => c.(instance := name)
               case ApplyKeyword(keyword) => c.(keyword := keyword)
               case SelectFile(file) => c.(file := file)
               case _ => c;
      Choices(c, es[1..])
  }

  lemma {:induction false} RunAsks(s: State, es: seq<Event>)
    ensures var q := Run(s, es).query;
            Choices(Chosen(s.query.instance, s.query.keyword, s.query.file), es) == Chosen(q.instance, q.keyword, q.file)
    decreases es
  {
    if es != [] { RunAsks(Step(s, es[0]), es[1..]); }
  }

  /** In every run the key asks for the instance, the keyword and the file chosen last. */
  lemma AsksForTheChoices(instance: string, es: seq<Event>)
    ensures var q := Run(Start(instance), es).query;
            Choices(Chosen(instance, "", ""), es) == Chosen(q.instance, q.keyword, q.file)
  {
    RunAsks(Start(instance), es);
  }

  /** The page applied last, whether a rewind came after it, and the size reported last. */
  datatype Seen = Seen(last: Option<Page>, rewound: bool, size: nat)

  function Sees(n: Seen, s: State, e: Event): Seen
  {
    match e
    case Response(page) =>
      if s.applied == Some(page.id) then n
      else Seen(Some(page), false, if page.totalSize.Some? then page.totalSize.value else n.size)
    case ApplyKeyword(_) => n.(rewound := true)
    case Refresh => n.(rewound := true)
    case SelectFile(_) => n.(rewound := true)
    case ToggleLiveTail(liveTail) => n.(rewound := n.rewound || !liveTail)
    case _ => n
  }

  function SeenOf(n: Seen, s: State, es: seq<Event>): Seen
    decreases es
  {
    if es == [] then n else SeenOf(Sees(n, s, es[0]), Step(s, es[0]), es[1..])
  }

  predicate Shows(n: Seen, s: State)
  {
    && s.totalSize == n.size
    && if n.last.Some? && !n.rewound then s.hasMore == n.last.value.hasMore && s.nextCursor == n.last.value.next
       else !s.hasMore && s.nextCursor == ""
  }

  lemma {:induction false} RunShown(n: Seen, s: State, es: seq<Event>)
    requires Shows(n, s)
    ensures Shows(SeenOf(n, s, es), Run(s, es))
    decreases es
  {
    if es != [] { RunShown(Sees(n, s, es[0]), Step(s, es[0]), es[1..]); }
  }

  /** In every run "more" and the next cursor are those of the page applied last, and none after a rewind; the
      size is the one reported last. */
  lemma ShownOfPages(instance: string, es: seq<Event>)
    ensures Shows(SeenOf(Seen(None, false, 0), Start(instance), es), Run(Start(instance), es))
  {
    RunShown(Seen(None, false, 0), Start(instance), es);
  }

  //-------------------------------------------------------
  // The implementation
  //-------------------------------------------------------

  class Paging {
    var rawLogs: seq<string>
    var nextCursor: string
    var hasMore: bool
    var isLoadingMore: bool
    var totalSize: nat
    var scannedBytes: nat
    var query: Query
    var liveTail: bool
    var keyword: string
    var applied: Option<nat>

    function View(): State
      reads this
    {
      State(rawLogs, nextCursor, hasMore, isLoadingMore, totalSize, scannedBytes, query, liveTail, keyword, applied)
    }

    constructor (instance: string)
      ensures View() == Start(instance)
    {
      rawLogs, nextCursor, hasMore, isLoadingMore := [], "", false, false;
      totalSize, scannedBytes, query := 0, 0, Query(instance, "", "", "", 0, false);
      liveTail, keyword, applied := false, "", None;
    }

    method ApplyResponse(page: Page)
      modifies this
      ensures View() == Step(old(View()), Response(page))
    {
      if applied == Some(page.id) { return; }
      applied := Some(page.id);
      if query.cursor != "" { rawLogs := rawLogs + page.logs; } else { rawLogs := page.logs; }
      nextCursor := page.next;
      hasMore := page.hasMore;
      isLoadingMore := false;
      if page.totalSize.Some? { totalSize := page.totalSize.value; }
      var scanned := Bytes(page.scanned);
      scannedBytes := if query.cursor != "" then scannedBytes + scanned else scanned;
    }

    method FetchSettled()
      modifies this
      ensures View() == Step(old(View()), Settled)
    {
      isLoadingMore := false;
    }

    method SetKeyword(next: string)
      modifies this
      ensures View() == Step(old(View()), ApplyKeyword(next))
    {
      query := query.(keyword := next, cursor := "");
      keyword := next;
      nextCursor := "";
      hasMore := false;
    }

    method HandleLoadMore(captured: string, loading: bool)
      modifies this
      ensures View() == Step(old(View()), LoadMore(captured, loading))
    {
      if captured == "" || loading { return; }
      liveTail := false;
      isLoadingMore := true;
      query := query.(cursor := captured, polling := false);
    }

    method HandleRefresh()
      modifies this
      ensures View() == Step(old(View()), Refresh)
    {
      nextCursor := "";
      hasMore := false;
      query := query.(cursor := "", reload := query.reload + 1);
    }

    method Toggle(captured: bool)
      modifies this
      ensures View() == Step(old(View()), ToggleLiveTail(captured))
    {
      var next := !captured;
      liveTail := next;
      if next {
        nextCursor := "";
        hasMore := false;
      }
      query := query.(cursor := "", polling := next);
    }

    /** The address names another instance. */
    method FollowInstance(name: string)
      modifies this
      ensures View() == Step(old(View()), SelectInstance(name))
    {
      query := query.(instance := name);
    }

    method Select(file: string)
      modifies this
      ensures View() == Step(old(View()), SelectFile(file))
    {
      liveTail := false;
      nextCursor := "";
      hasMore := false;
      query := query.(file := file, cursor := "", polling := false, reload := query.reload + 1);
    }
  }
}
