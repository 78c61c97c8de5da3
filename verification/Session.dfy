/** `terminateSession`: one teardown a session, and clean stores before navigation. */
module Session {
  import opened Text

  type Store = map<string, string>

  const TOKEN_KEY := "access_token"
  const REASON_KEY := "session_end_reason"
  const REDIRECT_KEY := "session_redirect_target"
  const PERSISTED_CACHE_KEY := "REACT_QUERY_OFFLINE_CACHE"
  const SERIES_KEY_MARK := "-series_"

  //-------------------------------------------------------
  // The storage scan
  //-------------------------------------------------------

  /** An entry that can carry data of the session whose token is `token`. */
  predicate Residue(key: string, value: string, token: string)
  {
    key == TOKEN_KEY || key == PERSISTED_CACHE_KEY || Contains(key, SERIES_KEY_MARK)
    || (token != "" && Contains(value, token))
  }

  predicate Clean(store: Store, token: string)
  {
    forall k | k in store :: !Residue(k, store[k], token)
  }

  /** The scan skips the empty key: an entry goes when it is residue under a non-empty key. */
  function Purged(store: Store, token: string): Store { Partly(store, token, {}) }

  /** What a scan that throws part way leaves: the entries it should keep, and those it had not come to. */
  function Partly(store: Store, token: string, spared: set<string>): Store
  {
    map k | k in store && (k == "" || !Residue(k, store[k], token) || k in spared) :: store[k]
  }

  /** The keys of a store in the order the browser lists them. */
  method Keys(store: Store) returns (keys: seq<string>)
    ensures forall k :: k in keys <==> k in store
  {
    keys := [];
    var rest := store.Keys;
    while rest != {}
      invariant rest <= store.Keys
      invariant forall k :: k in keys <==> k in store && k !in rest
      decreases |rest|
    {
      var k :| k in rest;
      keys := keys + [k];
      rest := rest - {k};
    }
  }

  method PurgeStore(store: Store, token: string) returns (kept: Store)
    ensures kept == Purged(store, token)
  {
    hide Contains;
    var keys := Keys(store);
    var doomed := [];
    for i := 0 to |keys|
      invariant forall k :: k in doomed <==> k in keys[..i] && k != "" && Residue(k, store[k], token)
    {
      var key := keys[i];
      assert keys[..i + 1] == keys[..i] + [key];
      if key != "" && Residue(key, store[key], token) { doomed := doomed + [key]; }
    }
    assert keys[..|keys|] == keys;
    kept := store;
    for i := 0 to |doomed|
      invariant kept == map k | k in store && k !in doomed[..i] :: store[k]
    {
      assert doomed[..i + 1] == doomed[..i] + [doomed[i]];
      kept := kept - {doomed[i]};
    }
    assert doomed[..|doomed|] == doomed;
  }

  /** The value under the empty key, which the scan never looks at, holds no token. */
  predicate EmptyKeyFree(store: Store, token: string)
  {
    "" in store && token != "" ==> !Contains(store[""], token)
  }

  /** Nothing a broken-off scan spared is residue. */
  predicate SparesNothing(store: Store, token: string, spared: set<string>)
  {
    forall k | k in store && k in spared && k != "" :: !Residue(k, store[k], token)
  }

  lemma PartlyClean(store: Store, token: string, spared: set<string>)
    ensures Clean(Partly(store, token, spared), token) <==> EmptyKeyFree(store, token) && SparesNothing(store, token, spared)
  {
    assert !Contains("", SERIES_KEY_MARK);
    hide Contains;
    var left := Partly(store, token, spared);
    if Clean(left, token) {
      if "" in store { assert "" in left; }
      forall k | k in store && k in spared && k != ""
        ensures !Residue(k, store[k], token)
      {
        assert k in left;
      }
    }
  }

  /** The scan leaves a clean store exactly when the skipped entry was clean already. */
  lemma PurgedClean(store: Store, token: string)
    ensures Clean(Purged(store, token), token) <==> EmptyKeyFree(store, token)
  {
    hide Residue, Clean, EmptyKeyFree, Partly;
    PartlyClean(store, token, {});
  }

  /** An entry under the empty key keeps its token. */
  lemma EmptyKeySkipped(token: string)
    requires token != ""
    ensures Purged(map["" := token], token) == map["" := token] && !Clean(Purged(map["" := token], token), token)
  {
    assert token[0..|token|] == token;
    FindFirst(token, token, 0);
    PurgedClean(map["" := token], token);
  }

  //-------------------------------------------------------
  // Where to return
  //-------------------------------------------------------

  /** The text before the first `c`. */
  function Before(s: string, c: char): (r: string)
    ensures c !in r && r <= s
  {
    if c in s then s[..IndexOf(s, c)] else s
  }

  function WithoutRoot(path: string, root: string): string
  {
    if root != "" && root + "/" <= path then path[|root|..] else path
  }

  function RedirectTarget(path: string, root: string): Option<string>
  {
    if !("/" <= path) || "//" <= path then None
    else
      var target := Before(WithoutRoot(path, root), '#');
      var bare := Before(target, '?');
      if bare == "/login" || bare == "/" then None else Some(target)
  }

  lemma BeforeAfter(a: string, b: string, c: char)
    requires c !in a
    ensures Before(a + b, c) == a + Before(b, c)
  {
    hide IndexOf;
    if c in b {
      IndexOfAfter(a, b, c);
      assert (a + b)[..|a| + IndexOf(b, c)] == a + b[..IndexOf(b, c)];
    }
  }

  /** `move_forced`: where the page goes, or nowhere when its address already contains the target. */
  function MoveForced(href: string, root: string, target: string): Option<string>
  {
    if Contains(href, target) then None else Some(root + target)
  }

  lemma TargetUnderRoot(path: string, root: string)
    requires RedirectTarget(path, root).Some? && '#' !in root
    ensures var t := RedirectTarget(path, root).value;
            "/" <= t && '#' !in t
            && (root + t == Before(path, '#') <==> root == "" || root + "/" <= path)
  {
    var rest := WithoutRoot(path, root);
    assert rest[0] == '/' by {
      if rest != path { assert (root + "/")[|root|] == path[|root|]; }
    }
    var t := Before(rest, '#');
    if root + "/" <= path {
      assert path == root + path[|root|..];
      BeforeAfter(root, path[|root|..], '#');
      if root == "" { assert root + t == t; }
    } else {
      assert |root + t| == |root| + |t|;
    }
  }

  /** After a new login on the page `href`, the application goes to where the operator was, query string
      included and fragment dropped, exactly when that page was served under the root and the address of the
      login page does not happen to contain the stored target. */
  lemma RedirectRestores(path: string, root: string, href: string)
    requires RedirectTarget(path, root).Some? && '#' !in root
    ensures var t := RedirectTarget(path, root).value;
            MoveForced(href, root, t) == Some(Before(path, '#'))
            <==> (root == "" || root + "/" <= path) && !Contains(href, t)
  {
    hide Contains, RedirectTarget;
    TargetUnderRoot(path, root);
  }

  /** An input that stays on the login page: the host is named like the route. */
  lemma HostNamedLikeRoute()
    ensures RedirectTarget("/user", "") == Some("/user")
    ensures MoveForced("http://user.example/login", "", "/user") == None
  {
    assert '#' !in "/user" && '?' !in "/user" && |"/user"| == 5 && |"/login"| == 6 && "/user"[1] == 'u';
    assert "http://user.example/login"[6..6 + 5] == "/user";
    FindFirst("http://user.example/login", "/user", 6);
  }

  /** A route of the login page or the landing page, with or without a query string or fragment. */
  predicate LoginOrLanding(path: string)
  {
    || path in {"/", "/login"} || "/?" <= path || "/#" <= path || "/login?" <= path || "/login#" <= path
  }

  /** A path is remembered exactly when it is a local one and, taken off the root, leads neither to the login
      page nor to the landing page. */
  lemma RememberedExactly(path: string, root: string)
    ensures var rest := if root != "" && root + "/" <= path then path[|root|..] else path;
            RedirectTarget(path, root).Some? <==> "/" <= path && !("//" <= path) && !LoginOrLanding(rest)
  {
    BareRoute(WithoutRoot(path, root), "/");
    BareRoute(WithoutRoot(path, root), "/login");
    hide Before, LoginOrLanding;
    LoginIs(WithoutRoot(path, root));
  }

  lemma LoginIs(rest: string)
    ensures LoginOrLanding(rest) <==>
              || (rest == "/" || "/?" <= rest || "/#" <= rest) || (rest == "/login" || "/login?" <= rest || "/login#" <= rest)
  {
  }

  /** Without fragment and query string a route is `name` exactly when it is that, or goes on with one of them. */
  lemma BareRoute(rest: string, name: string)
    requires '#' !in name && '?' !in name
    ensures Before(Before(rest, '#'), '?') == name <==> rest == name || name + "?" <= rest || name + "#" <= rest
  {
    var t := Before(rest, '#');
    CutIs(t, '?', name);
    CutIs(rest, '#', name);
    if name + "?" <= rest {
      BeforeKeepsPrefix(name + "?", rest, '#');
    }
    if name + "?" <= t { assert t <= rest; }
  }

  lemma CutIs(s: string, c: char, name: string)
    requires c !in name
    ensures Before(s, c) == name <==> s == name || name + [c] <= s
  {
    if name + [c] <= s {
      assert s == name + s[|name|..] && s[|name|..][0] == c;
      BeforeAfter(name, s[|name|..], c);
    }
  }

  lemma BeforeKeepsPrefix(p: string, s: string, c: char)
    requires c !in p
    ensures p <= Before(s, c) <==> p <= s
  {
    if p <= s {
      assert s == p + s[|p|..];
      BeforeAfter(p, s[|p|..], c);
    }
  }

  /** The check for a protocol-relative URL comes before the root is taken off: the stored target is one
      exactly when the root is followed by two slashes. */
  lemma RedirectIsLocal(path: string, root: string)
    requires RedirectTarget(path, root).Some?
    ensures "//" <= RedirectTarget(path, root).value <==> root != "" && root + "//" <= path
  {
    var rest := WithoutRoot(path, root);
    BeforeKeepsPrefix("//", rest, '#');
    assert (root + "//")[..|root| + 1] == root + "/";
    if root != "" && root + "/" <= path {
      assert path == root + rest;
      if "//" <= rest { assert rest == "//" + rest[2..] && path == (root + "//") + rest[2..]; }
      if root + "//" <= path { assert path[|root|..][..2] == "//"; }
    }
  }

  /** Inputs for both: a page outside the root does not come back, and two slashes after the root stay. */
  lemma RedirectWitnesses()
    ensures RedirectTarget("/a", "/b") == Some("/a") && "/b" + "/a" != Before("/a", '#')
    ensures RedirectTarget("/b//a", "/b") == Some("//a")
  {
    assert "/b//a"[|"/b"|..] == "//a" && "/a"[1] != "/b"[1];
    assert "/b//a"[1] == 'b' && "/b" + "/" <= "/b//a";
    assert '#' !in "/a" && '#' !in "//a" && '?' !in "/a" && '?' !in "//a";
    assert |"/login"| == 6 && |"/a"| == 2 && |"//a"| == 3;
  }

  //-------------------------------------------------------
  // Runs: calls, awaited purges and everything else in between
  //-------------------------------------------------------

  datatype Reason = Logout | Expired | Idle | Revoked

  function ReasonText(r: Reason): string
  {
    match r
    case Logout => "logout"
    case Expired => "expired"
    case Idle => "idle"
    case Revoked => "revoked"
  }

  /** The arguments of a call; `own` when the caller passes its own way to navigate. */
  datatype Call = Call(reason: Reason, path: Option<string>, own: bool)

  /** A teardown body waiting for its purge number `awaited`. */
  datatype Task = Task(token: string, call: Call, awaited: nat)

  /** Which statement of a body throws, if any: reading the token, the scan (with the entries of each store
      it had not come to), one of the two notes, or the caller's teardown callback. */
  datatype Fault = Nothing | TokenRead | Scan(local: set<string>, session: set<string>) | ReasonWrite | TargetWrite | Teardown

  /** The page when a body runs. */
  datatype Page = Page(location: string, atLogin: bool, fault: Fault)

  /** The stores at the moment a body navigates. */
  datatype Navigation = Navigation(token: string, local: Store, session: Store)

  /** `next` is the number the next waiting body gets. */
  datatype State = State(root: string, terminating: bool, local: Store, session: Store,
                         registered: nat, pending: map<nat, Task>, next: nat, log: seq<Navigation>)

  datatype Event =
    | Begin
    | Register
    | Terminate(call: Call, page: Page)
    | Settle(id: nat, ok: bool, page: Page)
    | Elsewhere(local: Store, session: Store)

  /** The body gets past the scan and writes why the session ended. */
  predicate WritesReason(page: Page) { !page.fault.Scan? && !page.fault.ReasonWrite? }

  function TargetOf(root: string, call: Call, page: Page): Option<string>
  {
    RedirectTarget(if call.path.Some? then call.path.value else page.location, root)
  }

  /** The target the finishing body remembers, when it gets that far. */
  function Remembered(root: string, call: Call, page: Page): Option<string>
  {
    if !WritesReason(page) || page.fault.TargetWrite? then None else TargetOf(root, call, page)
  }

  /** The local store after the scan, or after the part of it that came about. */
  function ScannedLocal(s: State, t: Task, page: Page): Store
  {
    Partly(s.local, t.token, if page.fault.Scan? then page.fault.local else {})
  }

  function ScannedSession(s: State, t: Task, page: Page): Store
  {
    Partly(s.session, t.token, if page.fault.Scan? then page.fault.session else {})
  }

  /** The session store after the two notes for the login screen. */
  function Noted(scanned: Store, root: string, call: Call, page: Page): Store
  {
    var reason := if WritesReason(page) then scanned[REASON_KEY := ReasonText(call.reason)] else scanned;
    var target := Remembered(root, call, page);
    if target.Some? then reason[REDIRECT_KEY := target.value] else reason
  }

  /** A target that is not a local path is never written, so its write cannot throw. */
  predicate Throws(root: string, call: Call, page: Page)
  {
    match page.fault
    case Nothing => false
    case TokenRead => false
    case TargetWrite => TargetOf(root, call, page).Some?
    case _ => true
  }

  /** The last resort of a body that throws is taken only for a caller without its own way to navigate. */
  predicate Navigates(root: string, call: Call, page: Page)
  {
    if Throws(root, call, page) then !call.own && !page.atLogin else call.own || !page.atLogin
  }

  function Finish(s: State, t: Task, page: Page): State
  {
    var local := ScannedLocal(s, t, page);
    var session := Noted(ScannedSession(s, t, page), s.root, t.call, page);
    var log := if Navigates(s.root, t.call, page) then s.log + [Navigation(t.token, local, session)] else s.log;
    s.(local := local, session := session, log := log)
  }

  /** A body that cannot read the token has nothing to scan for: it takes the last resort at once. */
  function Unread(s: State, call: Call, page: Page): State
  {
    if call.own || page.atLogin then s else s.(log := s.log + [Navigation(TokenOf(s.local), s.local, s.session)])
  }

  predicate Starts(s: State, e: Event) { e.Terminate? && !s.terminating }

  function TokenOf(local: Store): string { if TOKEN_KEY in local then local[TOKEN_KEY] else "" }

  /** A call on a live session, up to its first wait, or to its end when there is nothing to wait for. */
  function Start(s: State, call: Call, page: Page): State
  {
    var t := Task(TokenOf(s.local), call, 0);
    var s := s.(terminating := true);
    if page.fault.TokenRead? then Unread(s, call, page)
    else if s.registered == 0 then Finish(s, t, page)
    else s.(pending := s.pending[s.next := t], next := s.next + 1)
  }

  function Settled(s: State, id: nat, page: Page): State
    requires id in s.pending
  {
    var t := s.pending[id];
    if t.awaited + 1 < s.registered then s.(pending := s.pending[id := t.(awaited := t.awaited + 1)])
    else Finish(s.(pending := s.pending - {id}), t, page)
  }

  function Step(s: State, e: Event): State
  {
    match e
    case Begin => s.(terminating := false)
    case Register => s.(registered := s.registered + 1)
    case Elsewhere(local, session) => s.(local := local, session := session)
    case Terminate(call, page) => if s.terminating then s else Start(s, call, page)
    case Settle(id, ok, page) => if id in s.pending then Settled(s, id, page) else s
  }

  function Run(s: State, es: seq<Event>): State
    decreases es
  {
    if es == [] then s else Run(Step(s, es[0]), es[1..])
  }

  //-------------------------------------------------------
  // One teardown a session
  //-------------------------------------------------------

  function CountStarts(s: State, es: seq<Event>): nat
    decreases es
  {
    if es == [] then 0 else (if Starts(s, es[0]) then 1 else 0) + CountStarts(Step(s, es[0]), es[1..])
  }

  lemma Removed(m: map<nat, Task>, id: nat)
    requires id in m
    ensures |m - {id}| == |m| - 1
  {
    assert (m - {id}).Keys == m.Keys - {id};
  }

  lemma StepTerminating(s: State, e: Event)
    ensures Step(s, e).terminating == ((s.terminating && !e.Begin?) || Starts(s, e))
    ensures |Step(s, e).log| + |Step(s, e).pending| <= |s.log| + |s.pending| + if Starts(s, e) then 1 else 0
  {
    hide Partly, Noted, Navigates;
    if e.Settle? && e.id in s.pending { Removed(s.pending, e.id); }
  }

  /** However calls, purges and anything else interleave, a stretch without a new session starts the
      teardown body at most once, and navigates at most once for each body started. */
  lemma {:induction false} TearsDownOnce(s: State, es: seq<Event>)
    requires forall e | e in es :: !e.Begin?
    ensures CountStarts(s, es) <= if s.terminating then 0 else 1
    ensures |Run(s, es).log| + |Run(s, es).pending| <= |s.log| + |s.pending| + CountStarts(s, es)
    decreases es
  {
    if es != [] {
      hide Step, Starts;
      StepTerminating(s, es[0]);
      assert es[0] in es;
      TearsDownOnce(Step(s, es[0]), es[1..]);
    }
  }

  /** Over any run, navigations and waiting bodies together never outnumber the bodies started. */
  lemma {:induction false} NavigatesPerStart(s: State, es: seq<Event>)
    ensures |Run(s, es).log| + |Run(s, es).pending| <= |s.log| + |s.pending| + CountStarts(s, es)
    decreases es
  {
    if es != [] {
      hide Step, Starts;
      StepTerminating(s, es[0]);
      NavigatesPerStart(Step(s, es[0]), es[1..]);
    }
  }

  //-------------------------------------------------------
  // A body that started gets to its end
  //-------------------------------------------------------

  ghost predicate FreshIds(s: State) { forall id | id in s.pending :: id < s.next }

  function Settles(es: seq<Event>, id: nat): nat
  {
    if es == [] then 0 else (if es[0].Settle? && es[0].id == id then 1 else 0) + Settles(es[1..], id)
  }

  lemma StepFresh(s: State, e: Event)
    requires FreshIds(s)
    ensures FreshIds(Step(s, e)) && s.registered <= Step(s, e).registered
    ensures (e.Register? <==> s.registered < Step(s, e).registered)
  {
    hide Partly, Noted, Navigates;
  }

  lemma {:induction false} RegisteredGrows(s: State, es: seq<Event>)
    requires FreshIds(s)
    ensures s.registered <= Run(s, es).registered && FreshIds(Run(s, es))
    ensures (forall e | e in es :: !e.Register?) ==> s.registered == Run(s, es).registered
    decreases es
  {
    if es != [] {
      hide Step, FreshIds;
      StepFresh(s, es[0]);
      assert es[0] in es;
      RegisteredGrows(Step(s, es[0]), es[1..]);
    }
  }

  /** What a step does to a waiting body. */
  lemma StepWaits(s: State, e: Event, id: nat)
    requires FreshIds(s) && id in s.pending
    ensures var t, s' := s.pending[id], Step(s, e);
            if e.Settle? && e.id == id then
              if t.awaited + 1 < s.registered then id in s'.pending && s'.pending[id] == t.(awaited := t.awaited + 1)
              else s' == Finish(s.(pending := s.pending - {id}), t, e.page)
            else id in s'.pending && s'.pending[id] == t
  {
    hide Partly, Noted, Navigates;
  }

  /** The body numbered `id` reaches its end at event `k` of a run, with the token and call it started with. */
  ghost predicate EndsAt(s: State, es: seq<Event>, id: nat, k: nat, token: string, call: Call)
  {
    && k < |es| && es[k].Settle? && es[k].id == id
    && var b := Run(s, es[..k]);
       && id in b.pending && b.pending[id].token == token && b.pending[id].call == call
       && Run(s, es[..k + 1]) == Finish(b.(pending := b.pending - {id}), b.pending[id], es[k].page)
  }

  lemma EndsLater(s: State, es: seq<Event>, id: nat, k: nat, token: string, call: Call)
    requires es != [] && EndsAt(Step(s, es[0]), es[1..], id, k, token, call)
    ensures EndsAt(s, es, id, k + 1, token, call)
  {
    hide Step, Finish;
    assert es[..k + 1][0] == es[0] && es[..k + 1][1..] == es[1..][..k];
    assert es[..k + 2][0] == es[0] && es[..k + 2][1..] == es[1..][..k + 1];
  }

  lemma EndsNow(s: State, es: seq<Event>, id: nat)
    requires es != [] && es[0].Settle? && es[0].id == id && id in s.pending
    requires Step(s, es[0]) == Finish(s.(pending := s.pending - {id}), s.pending[id], es[0].page)
    ensures EndsAt(s, es, id, 0, s.pending[id].token, s.pending[id].call)
  {
    hide Step, Finish;
    assert es[..0] == [] && es[..1][0] == es[0] && es[..1][1..] == [];
    assert Run(s, es[..1]) == Run(Step(s, es[0]), []);
  }

  /** Whatever else a run interleaves, a waiting body reaches its end once as many of its waits have
      settled, well or badly, as purges are registered by then. */
  lemma {:induction false} BodyCompletes(s: State, es: seq<Event>, id: nat) returns (k: nat)
    requires FreshIds(s) && id in s.pending && Settles(es, id) > 0
    requires s.pending[id].awaited + Settles(es, id) >= Run(s, es).registered
    ensures EndsAt(s, es, id, k, s.pending[id].token, s.pending[id].call)
    decreases es
  {
    hide Step, FreshIds, EndsAt, Finish;
    var e, t := es[0], s.pending[id];
    var s1 := Step(s, e);
    StepWaits(s, e, id);
    StepFresh(s, e);
    RegisteredGrows(s, es);
    if e.Settle? && e.id == id && t.awaited + 1 >= s.registered {
      EndsNow(s, es, id);
      k := 0;
    } else {
      k := BodyCompletes(s1, es[1..], id);
      EndsLater(s, es, id, k, t.token, t.call);
      k := k + 1;
    }
  }

  /** And not before: while fewer of its waits have settled than purges were registered, the body waits. */
  lemma {:induction false} WaitsForPurges(s: State, es: seq<Event>, id: nat)
    requires FreshIds(s) && id in s.pending && s.pending[id].awaited + Settles(es, id) < s.registered
    ensures var pending := Run(s, es).pending;
            id in pending && pending[id] == s.pending[id].(awaited := s.pending[id].awaited + Settles(es, id))
    decreases es
  {
    if es != [] {
      hide Step, FreshIds;
      StepWaits(s, es[0], id);
      StepFresh(s, es[0]);
      RegisteredGrows(s, [es[0]]);
      assert Run(s, [es[0]]) == Run(Step(s, es[0]), []);
      WaitsForPurges(Step(s, es[0]), es[1..], id);
    }
  }

  /** A call on a live session runs its teardown to the end in every run in which its purges settle, with
      the token stored at the call; at once when no purge is registered. */
  lemma TeardownCompletes(s: State, call: Call, page: Page, es: seq<Event>) returns (k: nat)
    requires FreshIds(s) && !s.terminating && !page.fault.TokenRead?
    requires var s1 := Step(s, Terminate(call, page));
             s.registered > 0 ==> Settles(es, s.next) >= Run(s1, es).registered
    ensures s.registered == 0 ==>
              Step(s, Terminate(call, page)) == Finish(s.(terminating := true), Task(TokenOf(s.local), call, 0), page)
    ensures s.registered > 0 ==> EndsAt(Step(s, Terminate(call, page)), es, s.next, k, TokenOf(s.local), call)
  {
    hide Run, EndsAt, Finish;
    k := 0;
    var s1 := Step(s, Terminate(call, page));
    StepFresh(s, Terminate(call, page));
    if s.registered > 0 {
      RegisteredGrows(s1, es);
      k := BodyCompletes(s1, es, s.next);
    }
  }

  //-------------------------------------------------------
  // A session begun while an earlier one is still ending
  //-------------------------------------------------------

  ghost predicate OnlySettles(es: seq<Event>)
  {
    forall e | e in es :: e.Settle? && !e.page.fault.Scan?
  }

  lemma {:induction false} NothingSettles(s: State, es: seq<Event>)
    requires s.pending == map[] && OnlySettles(es)
    ensures Run(s, es) == s
    decreases es
  {
    if es != [] {
      assert es[0] in es;
      NothingSettles(s, es[1..]);
    }
  }

  lemma FinishTakesToken(s: State, t: Task, page: Page)
    requires !page.fault.Scan?
    ensures TOKEN_KEY !in Finish(s, t, page).local
  {
    hide Contains, Noted, Navigates;
    assert TOKEN_KEY != "" by { assert |TOKEN_KEY| == 12; }
  }

  lemma {:induction false} SettlesOf(n: nat, id: nat, page: Page)
    requires !page.fault.Scan?
    ensures var es := seq(n, i => Settle(id, true, page)); Settles(es, id) == n && OnlySettles(es)
  {
    var es := seq(n, i => Settle(id, true, page));
    if n > 0 {
      SettlesOf(n - 1, id, page);
      assert es[1..] == seq(n - 1, i => Settle(id, true, page));
    }
  }

  lemma SettlingTakesToken(s: State, id: nat) returns (es: seq<Event>)
    requires FreshIds(s) && id in s.pending
    ensures OnlySettles(es) && TOKEN_KEY !in Run(s, es).local
  {
    var page := Page("/", true, Nothing);
    var all := seq(s.registered + 1, i => Settle(id, true, page));
    hide Step, FreshIds, Finish, Run;
    SettlesOf(s.registered + 1, id, page);
    RegisteredGrows(s, all);
    var k := BodyCompletes(s, all, id);
    var b := Run(s, all[..k]);
    FinishTakesToken(b.(pending := b.pending - {id}), b.pending[id], all[k].page);
    es := all[..k + 1];
  }

  /** A session whose token is stored is left alone by the teardowns still under way exactly when there
      are none: a body that waits takes the token that is stored when it gets to its end. */
  lemma SparedExactly(s: State)
    requires FreshIds(s) && TOKEN_KEY in s.local
    ensures (forall es | OnlySettles(es) :: TOKEN_KEY in Run(s, es).local) <==> s.pending == map[]
  {
    hide Run, FreshIds, OnlySettles;
    if s.pending == map[] {
      forall es | OnlySettles(es)
        ensures TOKEN_KEY in Run(s, es).local
      {
        NothingSettles(s, es);
      }
    } else {
      var id :| id in s.pending;
      var es := SettlingTakesToken(s, id);
      assert OnlySettles(es) && TOKEN_KEY !in Run(s, es).local;
    }
  }

  /** An input for it: a login while the earlier teardown waits loses its token. */
  lemma LateBodyTakesNewToken(first: string, second: string, call: Call, page: Page)
    requires page.fault == Nothing
    ensures var s0 := State("", false, map[TOKEN_KEY := first], map[], 1, map[], 0, []);
            var s1 := Step(s0, Terminate(call, page));
            var s2 := Step(Step(s1, Begin), Elsewhere(map[TOKEN_KEY := second], map[]));
            !s2.terminating && s2.local == map[TOKEN_KEY := second] && TOKEN_KEY !in Step(s2, Settle(0, true, page)).local
  {
    var s0 := State("", false, map[TOKEN_KEY := first], map[], 1, map[], 0, []);
    var s1 := Step(s0, Terminate(call, page));
    var s2 := Step(Step(s1, Begin), Elsewhere(map[TOKEN_KEY := second], map[]));
    hide Finish;
    assert 0 in s2.pending;
    FinishTakesToken(s2.(pending := s2.pending - {0}), s2.pending[0], page);
  }

  //-------------------------------------------------------
  // Clean before navigation
  //-------------------------------------------------------

  predicate TextFree(text: string, token: string) { token == "" || !Contains(text, token) }

  /** What the finishing body itself leaves behind carries no token. */
  predicate Careful(s: State, t: Task, page: Page)
  {
    && EmptyKeyFree(s.local, t.token) && EmptyKeyFree(s.session, t.token)
    && (page.fault.Scan? ==>
          SparesNothing(s.local, t.token, page.fault.local) && SparesNothing(s.session, t.token, page.fault.session))
    && CarefulNotes(s.root, t.call, page, t.token)
  }

  predicate CarefulNotes(root: string, call: Call, page: Page, token: string)
  {
    && (WritesReason(page) ==> TextFree(ReasonText(call.reason), token))
    && (Remembered(root, call, page).Some? ==> TextFree(Remembered(root, call, page).value, token))
  }

  lemma Absent(s: string, p: string, k: nat)
    requires k < |p| && p[k] !in s
    ensures !Contains(s, p)
  {
    if Contains(s, p) { ContainsChar(s, p, k); }
  }

  lemma NoteNames()
    ensures !Contains(REASON_KEY, SERIES_KEY_MARK) && !Contains(REDIRECT_KEY, SERIES_KEY_MARK)
    ensures REASON_KEY != TOKEN_KEY && REASON_KEY != PERSISTED_CACHE_KEY && REASON_KEY != ""
    ensures REDIRECT_KEY != TOKEN_KEY && REDIRECT_KEY != PERSISTED_CACHE_KEY && REDIRECT_KEY != ""
  {
    hide Contains;
    Absent(REASON_KEY, SERIES_KEY_MARK, 0);
    Absent(REDIRECT_KEY, SERIES_KEY_MARK, 0);
    assert |REASON_KEY| == 18 && |REDIRECT_KEY| == 23 && |TOKEN_KEY| == 12 && |PERSISTED_CACHE_KEY| == 25;
  }

  /** Neither note key is a key the scan removes by name. */
  lemma NoteKeys(token: string, value: string)
    ensures Residue(REASON_KEY, value, token) <==> !TextFree(value, token)
    ensures Residue(REDIRECT_KEY, value, token) <==> !TextFree(value, token)
  {
    hide Contains;
    NoteNames();
  }

  lemma WriteClean(store: Store, key: string, value: string, token: string)
    requires key in store ==> !Residue(key, store[key], token)
    ensures Clean(store[key := value], token) <==> Clean(store, token) && !Residue(key, value, token)
  {
    hide Residue;
    var after := store[key := value];
    assert after[key] == value;
    if Clean(after, token) {
      forall k | k in store
        ensures !Residue(k, store[k], token)
      {
        assert k in after;
      }
    }
  }

  /** Notes written over a scanned store, which holds no residue under their keys. */
  lemma NotedClean(scanned: Store, root: string, call: Call, page: Page, token: string)
    requires WritesReason(page) ==>
               && (REASON_KEY in scanned ==> !Residue(REASON_KEY, scanned[REASON_KEY], token))
               && (REDIRECT_KEY in scanned ==> !Residue(REDIRECT_KEY, scanned[REDIRECT_KEY], token))
    ensures Clean(Noted(scanned, root, call, page), token) <==> Clean(scanned, token) && CarefulNotes(root, call, page, token)
  {
    hide Residue, TargetOf, TextFree, Clean;
    if WritesReason(page) {
      var reason := ReasonText(call.reason);
      NoteClean(scanned, REASON_KEY, reason, token);
      var target := Remembered(root, call, page);
      if target.Some? {
        assert |REASON_KEY| != |REDIRECT_KEY|;
        NoteClean(scanned[REASON_KEY := reason], REDIRECT_KEY, target.value, token);
      }
    }
  }

  lemma NoteClean(store: Store, key: string, text: string, token: string)
    requires key == REASON_KEY || key == REDIRECT_KEY
    requires key in store ==> !Residue(key, store[key], token)
    ensures Clean(store[key := text], token) <==> Clean(store, token) && TextFree(text, token)
  {
    hide Residue, TextFree, Clean;
    NoteKeys(token, text);
    WriteClean(store, key, text, token);
  }

  lemma ScannedNotes(store: Store, token: string)
    ensures var left := Partly(store, token, {});
            && (REASON_KEY in left ==> !Residue(REASON_KEY, left[REASON_KEY], token))
            && (REDIRECT_KEY in left ==> !Residue(REDIRECT_KEY, left[REDIRECT_KEY], token))
  {
    NoteNames();
    hide Contains;
  }

  /** After a body finishes, both stores are clean exactly when the value under the empty key, the reason
      and the remembered route carry no token, and a scan that threw spared no residue. */
  lemma FinishClean(s: State, t: Task, page: Page)
    ensures var after := Finish(s, t, page);
            (Clean(after.local, t.token) && Clean(after.session, t.token)) <==> Careful(s, t, page)
  {
    hide Residue, Navigates, EmptyKeyFree, SparesNothing, Partly, Noted, Clean, CarefulNotes;
    PartlyClean(s.local, t.token, if page.fault.Scan? then page.fault.local else {});
    PartlyClean(s.session, t.token, if page.fault.Scan? then page.fault.session else {});
    SparesNone(s.local, t.token);
    SparesNone(s.session, t.token);
    ScannedNotes(s.session, t.token);
    NotedClean(ScannedSession(s, t, page), s.root, t.call, page, t.token);
  }

  lemma SparesNone(store: Store, token: string)
    ensures SparesNothing(store, token, {})
  {
  }

  /** The scan, broken off or not, removed nothing but residue, and only the two notes were written. */
  lemma FinishKeeps(s: State, t: Task, page: Page, k: string)
    ensures var after := Finish(s, t, page);
            && (k in s.local && !Residue(k, s.local[k], t.token) ==> k in after.local && after.local[k] == s.local[k])
            && (k in after.local ==> k in s.local && after.local[k] == s.local[k])
            && (k != REASON_KEY && k != REDIRECT_KEY ==>
                  && ((k in s.session && !Residue(k, s.session[k], t.token))
                        ==> k in after.session && after.session[k] == s.session[k])
                  && (k in after.session ==> k in s.session && after.session[k] == s.session[k]))
  {
    hide Residue, Navigates, Remembered;
  }

  /** The body that finishes in this step, if one does. */
  function Finishing(s: State, e: Event): Option<(Task, Page)>
  {
    match e
    case Terminate(call, page) =>
      if !s.terminating && !page.fault.TokenRead? && s.registered == 0
      then Some((Task(TokenOf(s.local), call, 0), page)) else None
    case Settle(id, ok, page) =>
      if id in s.pending && s.pending[id].awaited + 1 >= s.registered then Some((s.pending[id], page)) else None
    case _ => None
  }

  /** The body that takes the last resort in this step because it could not read the token. */
  predicate GivesUp(s: State, e: Event)
  {
    Starts(s, e) && e.page.fault.TokenRead? && !e.call.own && !e.page.atLogin
  }

  /** What a step that navigates must find: a careful body; and stores clean already, when the token cannot be read. */
  ghost predicate CarefulStep(s: State, e: Event)
  {
    var f := Finishing(s, e);
    && (f.Some? && Navigates(s.root, f.value.0.call, f.value.1) ==> Careful(s, f.value.0, f.value.1))
    && (GivesUp(s, e) ==> Clean(s.local, TokenOf(s.local)) && Clean(s.session, TokenOf(s.local)))
  }

  ghost predicate CarefulRun(s: State, es: seq<Event>)
    decreases es
  {
    es != [] ==> CarefulStep(s, es[0]) && CarefulRun(Step(s, es[0]), es[1..])
  }

  predicate CleanNavigation(n: Navigation) { Clean(n.local, n.token) && Clean(n.session, n.token) }

  ghost predicate AllClean(log: seq<Navigation>) { forall n | n in log :: CleanNavigation(n) }

  lemma CleanSnoc(log: seq<Navigation>, n: Navigation)
    requires AllClean(log)
    ensures AllClean(log + [n]) <==> CleanNavigation(n)
  {
    hide CleanNavigation;
    assert (log + [n])[|log|] == n;
  }

  lemma StepClean(s: State, e: Event)
    requires AllClean(s.log)
    ensures AllClean(Step(s, e).log) <==> CarefulStep(s, e)
    ensures s.log <= Step(s, e).log
  {
    hide Careful, Clean, Navigates, Partly, Noted, AllClean;
    var f := Finishing(s, e);
    if f.Some? {
      FinishClean(s, f.value.0, f.value.1);
      var after := Finish(s, f.value.0, f.value.1);
      CleanSnoc(s.log, Navigation(f.value.0.token, after.local, after.session));
    }
    CleanSnoc(s.log, Navigation(TokenOf(s.local), s.local, s.session));
  }

  lemma {:induction false} LogGrows(s: State, es: seq<Event>)
    ensures s.log <= Run(s, es).log
    decreases es
  {
    if es != [] {
      LogStep(s, es[0]);
      hide Step;
      LogGrows(Step(s, es[0]), es[1..]);
    }
  }

  lemma LogStep(s: State, e: Event)
    ensures s.log <= Step(s, e).log
  {
    hide Navigates, Partly, Noted;
  }

  lemma UncleanStays(a: seq<Navigation>, b: seq<Navigation>)
    requires a <= b && AllClean(b)
    ensures AllClean(a)
  {
    hide CleanNavigation;
    assert forall n | n in a :: n in b;
  }

  /** Whatever a run interleaves, every navigation found both stores clean of its body's token exactly
      when every step that navigates was careful. */
  lemma {:induction false} EveryNavigationIsClean(s: State, es: seq<Event>)
    requires AllClean(s.log)
    ensures AllClean(Run(s, es).log) <==> CarefulRun(s, es)
    decreases es
  {
    if es != [] {
      hide Step, CarefulStep, AllClean;
      var s1 := Step(s, es[0]);
      StepClean(s, es[0]);
      if AllClean(s1.log) {
        EveryNavigationIsClean(s1, es[1..]);
      } else {
        LogGrows(s1, es[1..]);
        if AllClean(Run(s1, es[1..]).log) { UncleanStays(s1.log, Run(s1, es[1..]).log); }
      }
    }
  }

  /** A body that gives up with a token stored navigates over it: clearing before navigating holds only
      while storage can be read. */
  lemma GivingUpIsUnclean(s: State, e: Event)
    requires GivesUp(s, e) && TOKEN_KEY in s.local
    ensures |Step(s, e).log| == |s.log| + 1 && !CleanNavigation(Step(s, e).log[|s.log|])
  {
    hide Contains;
    assert Residue(TOKEN_KEY, s.local[TOKEN_KEY], TokenOf(s.local));
  }

  //-------------------------------------------------------
  // What is left, entry by entry
  //-------------------------------------------------------

  /** The entry carries nothing of the session: it is not the token, not the persisted cache, not a series
      cache, and its value does not embed the token. */
  ghost predicate Harmless(key: string, value: string, token: string)
  {
    && key != "access_token" && key != "REACT_QUERY_OFFLINE_CACHE"
    && !Occurs(key, "-series_") && (token != "" ==> !Occurs(value, token))
  }

  lemma HarmlessIs(key: string, value: string, token: string)
    ensures Residue(key, value, token) <==> !Harmless(key, value, token)
  {
    hide Contains, Occurs;
    ContainsOccurs(key, "-series_");
    ContainsOccurs(value, token);
  }

  /** The scan leaves the harmless entries and the one under the empty key, as they were, and no other. */
  lemma PurgedExactly(store: Store, token: string, k: string)
    ensures k in Purged(store, token) <==> k in store && (k == "" || Harmless(k, store[k], token))
    ensures k in Purged(store, token) ==> Purged(store, token)[k] == store[k]
  {
    hide Residue, Harmless;
    if k in store { HarmlessIs(k, store[k], token); }
  }

  /** After a body whose scan did not throw, no entry of either store but the one under the empty key carries
      anything of the session, the values of the two notes apart; and every harmless entry is as it was. */
  lemma FinishScrubs(s: State, t: Task, page: Page, k: string)
    requires !page.fault.Scan? && k != ""
    ensures var after := Finish(s, t, page);
            && (k in after.local ==> Harmless(k, after.local[k], t.token))
            && (k in after.session ==>
                  Harmless(k, after.session[k], if k in {"session_end_reason", "session_redirect_target"} then "" else t.token))
            && (k in s.local && Harmless(k, s.local[k], t.token) ==> k in after.local && after.local[k] == s.local[k])
            && ((k in s.session && Harmless(k, s.session[k], t.token) && k !in {"session_end_reason", "session_redirect_target"}) ==>
                  k in after.session && after.session[k] == s.session[k])
  {
    hide Harmless, Residue, Purged, Partly, Navigates, Remembered, WritesReason, ReasonText;
    PurgedExactly(s.local, t.token, k);
    PurgedExactly(s.session, t.token, k);
    ScannedIs(s, t, page);
    NotesHarmless(k, if k in s.session then s.session[k] else "", t.token);
    var after := Finish(s, t, page);
    if k in after.session { NotesHarmless(k, after.session[k], t.token); }
  }

  lemma ScannedIs(s: State, t: Task, page: Page)
    requires !page.fault.Scan?
    ensures ScannedLocal(s, t, page) == Purged(s.local, t.token) && ScannedSession(s, t, page) == Purged(s.session, t.token)
  {
    hide Partly;
  }

  /** The keys of the notes are harmless. */
  lemma NotesHarmless(k: string, value: string, token: string)
    ensures k in {"session_end_reason", "session_redirect_target"} ==> Harmless(k, value, "")
  {
    hide Contains, Occurs;
    NoteNames();
    ContainsOccurs(k, "-series_");
  }

  /** The notes a body without a fault leaves: why the session ended, and where it was, if that is a route to return to. */
  lemma FinishNotes(s: State, t: Task, page: Page)
    requires page.fault.Nothing?
    ensures var notes := Finish(s, t, page).session;
            var path := if t.call.path.Some? then t.call.path.value else page.location;
            && "session_end_reason" in notes
            && notes["session_end_reason"] == (match t.call.reason
                                               case Logout => "logout"
                                               case Expired => "expired"
                                               case Idle => "idle"
                                               case Revoked => "revoked")
            && (RedirectTarget(path, s.root).Some? ==>
                  "session_redirect_target" in notes && notes["session_redirect_target"] == RedirectTarget(path, s.root).value)
  {
    hide Partly, RedirectTarget, Navigates;
    assert |REASON_KEY| == 18 && |REDIRECT_KEY| == 23;
  }

  /** A body without a fault hands over to the caller's navigation, or goes to the login page unless it is there. */
  lemma FinishNavigates(s: State, t: Task, page: Page)
    requires page.fault.Nothing?
    ensures var after := Finish(s, t, page);
            after.log == s.log + if t.call.own || !page.atLogin then [Navigation(t.token, after.local, after.session)] else []
  {
    hide Partly, Noted;
  }

  /** Every entry is harmless, the one under the empty key included. */
  ghost predicate AllHarmless(store: Store, token: string)
  {
    forall k | k in store :: Harmless(k, store[k], token)
  }

  lemma CleanIs(store: Store, token: string)
    ensures Clean(store, token) <==> AllHarmless(store, token)
  {
    hide Residue, Harmless;
    forall k | k in store
      ensures Residue(k, store[k], token) <==> !Harmless(k, store[k], token)
    {
      HarmlessIs(k, store[k], token);
    }
  }

  /** Clearing comes before navigating: in every interleaving, with its reads, scans, notes and callbacks free
      to throw, all entries at all navigations are harmless exactly when every step that navigates is careful. */
  lemma EveryNavigationIsHarmless(s: State, es: seq<Event>)
    requires s.log == []
    ensures (forall n | n in Run(s, es).log :: AllHarmless(n.local, n.token) && AllHarmless(n.session, n.token))
            <==> CarefulRun(s, es)
  {
    hide Run, CarefulRun, AllHarmless, Clean;
    EveryNavigationIsClean(s, es);
    forall n | n in Run(s, es).log
      ensures CleanNavigation(n) <==> AllHarmless(n.local, n.token) && AllHarmless(n.session, n.token)
    {
      CleanIs(n.local, n.token);
      CleanIs(n.session, n.token);
    }
  }

  //-------------------------------------------------------
  // The implementation
  //-------------------------------------------------------

  class Console {
    const root: string
    var terminating: bool
    var local: Store
    var session: Store
    var registered: nat
    var pending: map<nat, Task>
    var next: nat
    var log: seq<Navigation>

    function View(): State
      reads this
    {
      State(root, terminating, local, session, registered, pending, next, log)
    }

    constructor (root: string, local: Store, session: Store)
      ensures View() == State(root, false, local, session, 0, map[], 0, [])
    {
      this.root := root;
      this.local, this.session := local, session;
      terminating, registered, pending, next, log := false, 0, map[], 0, [];
    }

    method BeginSession()
      modifies this
      ensures View() == Step(old(View()), Begin)
    {
      terminating := false;
    }

    method RegisterSessionPurge()
      modifies this
      ensures View() == Step(old(View()), Register)
    {
      registered := registered + 1;
    }

    /** From the call to its first wait, or to its end when there is nothing to wait for. */
    method TerminateSession(call: Call, page: Page)
      modifies this
      ensures View() == Step(old(View()), Terminate(call, page))
    {
      if terminating { return; }
      terminating := true;
      var token := if TOKEN_KEY in local then local[TOKEN_KEY] else "";
      if page.fault.TokenRead? {
        if !call.own && !page.atLogin { log := log + [Navigation(token, local, session)]; }
        return;
      }
      var task := Task(token, call, 0);
      if registered == 0 {
        FinishBody(task, page);
      } else {
        pending := pending[next := task];
        next := next + 1;
      }
    }

    /** A purge settles, well or badly: the body goes on to the next purge or to its end. */
    method SettlePurge(id: nat, ok: bool, page: Page)
      requires id in pending
      modifies this
      ensures View() == Step(old(View()), Settle(id, ok, page))
    {
      var task := pending[id];
      if task.awaited + 1 < registered {
        pending := pending[id := task.(awaited := task.awaited + 1)];
      } else {
        pending := pending - {id};
        FinishBody(task, page);
      }
    }

    /** The part of the body that follows the last wait; `page.fault` says which statement throws. */
    method FinishBody(task: Task, page: Page)
      modifies this
      ensures View() == Finish(old(View()), task, page)
    {
      hide Partly, RedirectTarget;
      var failed := false;
      if page.fault.Scan? {
        local := Partly(local, task.token, page.fault.local);
        session := Partly(session, task.token, page.fault.session);
        failed := true;
      } else {
        local := PurgeStore(local, task.token);
        session := PurgeStore(session, task.token);
        failed := page.fault.ReasonWrite?;
      }
      if !failed {
        session := session[REASON_KEY := ReasonText(task.call.reason)];
        var target := RedirectTarget(if task.call.path.Some? then task.call.path.value else page.location, root);
        if target.Some? {
          failed := page.fault.TargetWrite?;
          if !failed { session := session[REDIRECT_KEY := target.value]; }
        }
        failed := failed || page.fault.Teardown?;
      }
      var moves := if failed then !task.call.own && !page.atLogin else task.call.own || !page.atLogin;
      if moves { log := log + [Navigation(task.token, local, session)]; }
    }
  }
}
