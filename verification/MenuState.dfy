/** The side menu's open and closed nodes, keyed by path text. Names may themselves contain `/`. */
module MenuState {
  import opened Text

  datatype Item = Item(name: string, children: Children)
  datatype Children = Leaf | Items(items: seq<Item>)
  type State = map<string, bool>

  //-------------------------------------------------------
  // The menu table
  //-------------------------------------------------------

  function FindItem(items: seq<Item>, name: string): Option<Item>
  {
    if items == [] then None
    else if items[0].name == name then Some(items[0])
    else FindItem(items[1..], name)
  }

  /** Descends along `path` as far as there are children, skipping empty names. */
  function Descend(current: Option<Item>, path: seq<string>): Option<Item>
    decreases |path|
  {
    if path == [] || current.None? || current.value.children.Leaf? then current
    else Descend(if path[0] == "" then current else FindItem(current.value.children.items, path[0]), path[1..])
  }

  function FindItemByPath(menu: seq<Item>, path: seq<string>): Option<Item>
  {
    if path == [] then None else Descend(FindItem(menu, path[0]), path[1..])
  }

  /** The other named items beside the last name of a path. */
  function Others(items: seq<Item>, parent: seq<string>, name: string): seq<seq<string>>
  {
    if items == [] then []
    else
      var rest := Others(items[1..], parent, name);
      if items[0].name != "" && items[0].name != name then [parent + [items[0].name]] + rest else rest
  }

  function SiblingPaths(menu: seq<Item>, path: seq<string>): seq<seq<string>>
  {
    if path == [] then []
    else if |path| == 1 then Others(menu, [], path[0])
    else
      var parent, name := path[..|path| - 1], path[|path| - 1];
      var item := FindItemByPath(menu, parent);
      if item.None? || item.value.children.Leaf? then [] else Others(item.value.children.items, parent, name)
  }

  function NonEmpty(names: seq<string>): seq<string>
  {
    if names == [] then []
    else if names[0] == "" then NonEmpty(names[1..])
    else [names[0]] + NonEmpty(names[1..])
  }

  function PathKey(path: seq<string>): string { Join(NonEmpty(path), "/") }

  //-------------------------------------------------------
  // Toggling
  //-------------------------------------------------------

  /** `a` is a segment prefix of `b`. */
  predicate Above(a: string, b: string) { a + "/" <= b }

  predicate IsOpen(s: State, key: string) { key in s && s[key] }

  function Extend(current: string, segment: string): string
  {
    if current == "" then segment else current + "/" + segment
  }

  /** The keys the opening loop sets, from the segments of the target key. */
  function Openings(segments: seq<string>, current: string): set<string>
  {
    if segments == [] then {}
    else if segments[0] == "" then Openings(segments[1..], current)
    else
      var next := Extend(current, segments[0]);
      {next} + Openings(segments[1..], next)
  }

  function OpenedBy(key: string): set<string> { Openings(Split(key, '/'), "") }

  /** Opening closes a sibling, and every known key under it. */
  predicate Closes(sibling: string, known: set<string>, key: string)
  {
    sibling != "" && (key == sibling || (key in known && Above(sibling, key)))
  }

  predicate ClosedBy(siblings: seq<string>, known: set<string>, key: string)
  {
    exists j :: 0 <= j < |siblings| && Closes(siblings[j], known, key)
  }

  /** The state after opening `key`. */
  ghost predicate Opened(next: State, prev: State, key: string, siblings: seq<string>)
  {
    forall k ::
      (k in next <==> k in prev || k in OpenedBy(key) || ClosedBy(siblings, prev.Keys, k))
      && (k in next ==> next[k] == if ClosedBy(siblings, prev.Keys, k) then false
                                   else if k in OpenedBy(key) then true else prev[k])
  }

  /** The state after closing `key`. */
  ghost predicate Closed(next: State, prev: State, key: string)
  {
    forall k ::
      (k in next <==> k in prev || k == key)
      && (k in next ==> next[k] == if k == key || Above(key, k) then false else prev[k])
  }

  function SiblingKeys(menu: seq<Item>, path: seq<string>): (r: seq<string>)
    ensures |r| == |SiblingPaths(menu, path)|
    ensures forall j | 0 <= j < |r| :: r[j] == PathKey(SiblingPaths(menu, path)[j])
  {
    seq(|SiblingPaths(menu, path)|, j requires 0 <= j < |SiblingPaths(menu, path)| => PathKey(SiblingPaths(menu, path)[j]))
  }

  /** `prev` becomes `next` when `path` is toggled, or set to `state`. */
  ghost predicate Toggled(next: State, prev: State, menu: seq<Item>, path: seq<string>, state: Option<bool>)
  {
    var key := PathKey(path);
    if path == [] || key == "" then next == prev
    else if (if state.Some? then state.value else !IsOpen(prev, key)) then Opened(next, prev, key, SiblingKeys(menu, path))
    else Closed(next, prev, key)
  }

  method OpenSegments(key: string) returns (updates: State)
    ensures forall k :: k in updates <==> k in OpenedBy(key)
    ensures forall k | k in updates :: updates[k]
  {
    updates := map[];
    var segments := Split(key, '/');
    var current := "";
    for i := 0 to |segments|
      invariant forall k :: k in OpenedBy(key) <==> k in updates || k in Openings(segments[i..], current)
      invariant forall k | k in updates :: updates[k]
    {
      var segment := segments[i];
      assert segments[i..][1..] == segments[i + 1..];
      if segment != "" {
        current := Extend(current, segment);
        updates := updates[current := true];
      }
    }
  }

  /** The known keys under `key`, set to false. */
  method CloseUnder(updates: State, known: set<string>, key: string) returns (next: State)
    ensures forall k :: k in next <==> k in updates || (k in known && Above(key, k))
    ensures forall k | k in next :: next[k] == if k in known && Above(key, k) then false else updates[k]
  {
    next := updates;
    var rest := known;
    while rest != {}
      invariant rest <= known
      invariant forall k :: k in next <==> k in updates || (k in known - rest && Above(key, k))
      invariant forall k | k in next :: next[k] == if k in known - rest && Above(key, k) then false else updates[k]
      decreases |rest|
    {
      var k :| k in rest;
      rest := rest - {k};
      if Above(key, k) { next := next[k := false]; }
    }
  }

  method OpenPath(prev: State, key: string, siblings: seq<string>) returns (next: State)
    ensures Opened(next, prev, key, siblings)
  {
    hide OpenedBy, Above;
    var updates := OpenSegments(key);
    for j := 0 to |siblings|
      invariant forall k :: k in updates <==> k in OpenedBy(key) || ClosedBy(siblings[..j], prev.Keys, k)
      invariant forall k | k in updates :: updates[k] == !ClosedBy(siblings[..j], prev.Keys, k)
    {
      hide ClosedBy;
      var sibling := siblings[j];
      OneMoreSibling(siblings, prev.Keys, j);
      if sibling != "" {
        updates := updates[sibling := false];
        updates := CloseUnder(updates, prev.Keys, sibling);
      }
    }
    assert siblings[..|siblings|] == siblings;
    next := prev + updates;
  }

  method ClosePath(prev: State, key: string) returns (next: State)
    ensures Closed(next, prev, key)
  {
    hide Above;
    var updates := map[key := false];
    updates := CloseUnder(updates, prev.Keys, key);
    next := prev + updates;
  }

  method ToggleMenuState(prev: State, menu: seq<Item>, path: seq<string>, state: Option<bool>) returns (next: State)
    ensures Toggled(next, prev, menu, path, state)
  {
    hide Opened, Closed, PathKey, SiblingKeys;
    if path == [] { return prev; }
    var key := PathKey(path);
    if key == "" { return prev; }
    var newState := if state.Some? then state.value else !IsOpen(prev, key);
    if newState {
      next := OpenPath(prev, key, SiblingKeys(menu, path));
    } else {
      next := ClosePath(prev, key);
    }
  }

  lemma OneMoreSibling(siblings: seq<string>, known: set<string>, j: nat)
    requires j < |siblings|
    ensures forall k :: ClosedBy(siblings[..j + 1], known, k) <==> ClosedBy(siblings[..j], known, k) || Closes(siblings[j], known, k)
  {
    hide Closes;
    forall k
      ensures ClosedBy(siblings[..j + 1], known, k) <==> ClosedBy(siblings[..j], known, k) || Closes(siblings[j], known, k)
    {
      assert forall i | 0 <= i < j :: siblings[..j + 1][i] == siblings[..j][i];
      assert siblings[..j + 1][j] == siblings[j];
    }
  }

  //-------------------------------------------------------
  // The opened prefixes
  //-------------------------------------------------------

  /** The key whose prefixes an opening sets: the target's segments without the empty ones. */
  function Target(key: string): string { Join(NonEmpty(Split(key, '/')), "/") }

  /** A key of a real menu path has no empty segment. */
  predicate Real(key: string) { "" !in Split(key, '/') }

  ghost predicate NoSlash(segments: seq<string>) { forall p | p in segments :: '/' !in p }

  /** A segment prefix of an extended key is the key extended, or a segment prefix of it. */
  lemma AboveExtend(a: string, current: string, segment: string)
    requires '/' !in segment && Above(a, Extend(current, segment))
    ensures current != "" && (a == current || Above(a, current))
  {
    var next := Extend(current, segment);
    assert next[|a|] == '/' by { assert (a + "/")[|a|] == '/'; }
    assert forall k | 0 <= k < |segment| :: segment[k] in segment && segment[k] != '/';
    if current != "" {
      assert forall k | |current| < k < |next| :: next[k] == segment[k - |current| - 1];
      assert |a| <= |current|;
      assert a == next[..|a|];
      if |a| < |current| {
        assert next[..|a| + 1] == current[..|a| + 1];
        assert (a + "/") == next[..|a| + 1];
      }
    }
  }

  lemma {:induction false} OpeningsClosed(segments: seq<string>, current: string, x: string, a: string)
    requires NoSlash(segments) && x in Openings(segments, current) && Above(a, x)
    ensures a in Openings(segments, current) || (current != "" && (a == current || Above(a, current)))
  {
    hide Above;
    assert segments[0] in segments && NoSlash(segments[1..]);
    if segments[0] == "" {
      OpeningsClosed(segments[1..], current, x, a);
    } else {
      var next := Extend(current, segments[0]);
      if x == next {
        AboveExtend(a, current, segments[0]);
      } else {
        OpeningsClosed(segments[1..], next, x, a);
        if Above(a, next) { AboveExtend(a, current, segments[0]); }
      }
    }
  }

  lemma OpenedIsClosedUpwards(key: string, x: string, a: string)
    requires x in OpenedBy(key) && Above(a, x)
    ensures a in OpenedBy(key)
  {
    hide Above, Openings;
    OpeningsClosed(Split(key, '/'), "", x, a);
  }

  lemma AboveJoin(a: string, b: string)
    ensures Above(a, a + "/" + b)
    ensures forall x | Above(x, a) :: Above(x, a + "/" + b)
  {
  }

  lemma {:induction false} OpeningsReach(segments: seq<string>, current: string, x: string)
    requires x in Openings(segments, current)
    ensures NonEmpty(segments) != []
    ensures var end := Extend(current, Join(NonEmpty(segments), "/")); x == end || Above(x, end)
  {
    hide Above, Join, Extend;
    if segments[0] == "" {
      OpeningsReach(segments[1..], current, x);
    } else {
      var next, rest := Extend(current, segments[0]), NonEmpty(segments[1..]);
      EndStep(current, segments[0], rest);
      if x != next { OpeningsReach(segments[1..], next, x); }
    }
  }

  /** Going on from one more segment leads to the same end, which that segment's key is or is above. */
  lemma EndStep(current: string, first: string, rest: seq<string>)
    requires first != ""
    ensures var next, end := Extend(current, first), Extend(current, Join([first] + rest, "/"));
            if rest == [] then end == next
            else end == Extend(next, Join(rest, "/")) && Above(next, end)
  {
    hide Above, Join;
    JoinStep(first, rest);
    var next := Extend(current, first);
    AboveJoin(next, Join(rest, "/"));
    if rest != [] { assert next + "/" + Join(rest, "/") == Extend(current, first + "/" + Join(rest, "/")); }
  }

  lemma JoinStep(first: string, rest: seq<string>)
    ensures Join([first] + rest, "/") == if rest == [] then first else first + "/" + Join(rest, "/")
  {
    assert ([first] + rest)[1..] == rest;
  }

  lemma OpenedReach(key: string, x: string)
    requires x in OpenedBy(key)
    ensures x == Target(key) || Above(x, Target(key))
  {
    OpeningsReach(Split(key, '/'), "", x);
  }

  lemma {:induction false} OpeningsEnd(segments: seq<string>, current: string)
    requires NonEmpty(segments) != []
    ensures Extend(current, Join(NonEmpty(segments), "/")) in Openings(segments, current)
  {
    hide Above, Join, Extend;
    if segments[0] == "" {
      OpeningsEnd(segments[1..], current);
    } else {
      var next, rest := Extend(current, segments[0]), NonEmpty(segments[1..]);
      EndStep(current, segments[0], rest);
      if rest != [] { OpeningsEnd(segments[1..], next); }
    }
  }

  lemma {:induction false} NothingEmpty(names: seq<string>)
    requires "" !in names
    ensures NonEmpty(names) == names
  {
    if names != [] {
      assert names[0] in names;
      NothingEmpty(names[1..]);
    }
  }

  lemma RealOpensItself(key: string)
    requires Real(key)
    ensures Target(key) == key && key in OpenedBy(key)
  {
    hide Join, Split, NonEmpty;
    NothingEmpty(Split(key, '/'));
    JoinSplit(key, '/');
    OpeningsEnd(Split(key, '/'), "");
  }

  //-------------------------------------------------------
  // Every reachable state
  //-------------------------------------------------------

  /** An open key has all its segment prefixes open. */
  ghost predicate PrefixesOpen(s: State)
  {
    forall k, a | IsOpen(s, k) && Above(a, k) :: IsOpen(s, a)
  }

  /** No sibling is the target or a segment prefix of it. */
  predicate Apart(siblings: seq<string>, key: string)
  {
    forall j | 0 <= j < |siblings| && siblings[j] != "" :: siblings[j] != Target(key) && !Above(siblings[j], Target(key))
  }

  lemma AboveTrans(a: string, b: string, c: string)
    requires Above(a, b) && Above(b, c)
    ensures Above(a, c)
  {
    assert a + "/" <= b <= b + "/" <= c;
  }

  /** What an opening sets, it does not close again. */
  lemma OpenedStays(siblings: seq<string>, key: string, known: set<string>, x: string)
    requires Apart(siblings, key) && x in OpenedBy(key)
    ensures !ClosedBy(siblings, known, x)
  {
    hide Above, Target, OpenedBy;
    OpenedReach(key, x);
    forall j | 0 <= j < |siblings|
      ensures !Closes(siblings[j], known, x)
    {
      if Above(siblings[j], x) && Above(x, Target(key)) { AboveTrans(siblings[j], x, Target(key)); }
    }
  }

  /** If a segment prefix of a known key is closed, so is the key. */
  lemma ClosedDownwards(siblings: seq<string>, known: set<string>, k: string, a: string)
    requires ClosedBy(siblings, known, a) && Above(a, k) && k in known
    ensures ClosedBy(siblings, known, k)
  {
    hide Above;
    var j :| 0 <= j < |siblings| && Closes(siblings[j], known, a);
    if Above(siblings[j], a) { AboveTrans(siblings[j], a, k); }
    assert Closes(siblings[j], known, k);
  }

  lemma OpeningKeepsPrefixes(next: State, prev: State, key: string, siblings: seq<string>)
    requires PrefixesOpen(prev) && Opened(next, prev, key, siblings) && Apart(siblings, key)
    ensures PrefixesOpen(next)
  {
    forall k, a | IsOpen(next, k) && Above(a, k)
      ensures IsOpen(next, a)
    {
      hide Above, OpenedBy, ClosedBy, Apart;
      if k in OpenedBy(key) {
        OpenedIsClosedUpwards(key, k, a);
        OpenedStays(siblings, key, prev.Keys, a);
      } else {
        assert IsOpen(prev, k) && IsOpen(prev, a);
        if ClosedBy(siblings, prev.Keys, a) { ClosedDownwards(siblings, prev.Keys, k, a); }
      }
    }
  }

  lemma ClosingKeepsPrefixes(next: State, prev: State, key: string)
    requires PrefixesOpen(prev) && Closed(next, prev, key)
    ensures PrefixesOpen(next)
  {
    forall k, a | IsOpen(next, k) && Above(a, k)
      ensures IsOpen(next, a)
    {
      hide Above;
      assert IsOpen(prev, k) && IsOpen(prev, a);
      if Above(key, a) { AboveTrans(key, a, k); }
    }
  }

  /** Toggling `path` opens it. */
  predicate Opens(prev: State, path: seq<string>, state: Option<bool>)
  {
    PathKey(path) != "" && if state.Some? then state.value else !IsOpen(prev, PathKey(path))
  }

  /** No sibling hides the path: none is it or a segment prefix of it. */
  predicate Allowed(menu: seq<Item>, path: seq<string>) { Apart(SiblingKeys(menu, path), PathKey(path)) }

  /** One step of the menu: closing everything, closing any path, or opening one that no sibling hides. */
  ghost predicate Step(prev: State, next: State, menu: seq<Item>)
  {
    next == map[]
    || exists path: seq<string>, state: Option<bool> ::
         (Opens(prev, path, state) ==> Allowed(menu, path)) && Toggled(next, prev, menu, path, state)
  }

  lemma StepKeepsPrefixes(prev: State, next: State, menu: seq<Item>)
    requires PrefixesOpen(prev) && Step(prev, next, menu)
    ensures PrefixesOpen(next)
  {
    if next != map[] {
      hide Apart, PrefixesOpen, Opened, Closed;
      var path: seq<string>, state: Option<bool> :|
        (Opens(prev, path, state) ==> Allowed(menu, path)) && Toggled(next, prev, menu, path, state);
      var key := PathKey(path);
      if path != [] && key != "" {
        if Opens(prev, path, state) {
          OpeningKeepsPrefixes(next, prev, key, SiblingKeys(menu, path));
        } else {
          ClosingKeepsPrefixes(next, prev, key);
        }
      }
    }
  }

  /** In every reachable state, an open key has all its segment prefixes open. */
  lemma {:induction false} ReachableKeepsPrefixes(run: seq<State>, menu: seq<Item>)
    requires |run| > 0 && run[0] == map[]
    requires forall i | 0 < i < |run| :: Step(run[i - 1], run[i], menu)
    ensures PrefixesOpen(run[|run| - 1])
  {
    if |run| > 1 {
      hide Step, PrefixesOpen;
      var n := |run| - 1;
      ReachableKeepsPrefixes(run[..n], menu);
      StepKeepsPrefixes(run[n - 1], run[n], menu);
    }
  }

  /** After opening a real path, it is open and neither a sibling nor anything under one is. */
  lemma OpeningClosesSiblings(next: State, prev: State, key: string, siblings: seq<string>, j: nat, k: string)
    requires Opened(next, prev, key, siblings) && Apart(siblings, key) && Real(key)
    requires j < |siblings| && siblings[j] != "" && (k == siblings[j] || Above(siblings[j], k))
    ensures IsOpen(next, key) && !IsOpen(next, k)
  {
    hide Above, Real, Target, OpenedBy, Apart;
    RealOpensItself(key);
    OpenedStays(siblings, key, prev.Keys, key);
    if k in OpenedBy(key) {
      UnderSibling(siblings, key, j, k);
    } else if k in prev {
      assert Closes(siblings[j], prev.Keys, k);
    } else if k == siblings[j] {
      assert Closes(siblings[j], prev.Keys, k);
    }
  }

  lemma UnderSibling(siblings: seq<string>, key: string, j: nat, k: string)
    requires Apart(siblings, key) && j < |siblings| && siblings[j] != "" && (k == siblings[j] || Above(siblings[j], k))
    ensures k !in OpenedBy(key)
  {
    hide OpenedBy, Target, Above;
    if k in OpenedBy(key) {
      OpenedReach(key, k);
      if Above(siblings[j], k) && Above(k, Target(key)) { AboveTrans(siblings[j], k, Target(key)); }
    }
  }

  lemma OpenedTarget(key: string)
    requires NonEmpty(Split(key, '/')) != []
    ensures Target(key) in OpenedBy(key)
  {
    hide Join, Split, NonEmpty, Openings;
    OpeningsEnd(Split(key, '/'), "");
  }

  /** Opening keeps every prefix open and leaves the target open exactly when no sibling is the target
      or a segment prefix of it. */
  lemma OpeningExactly(next: State, prev: State, key: string, siblings: seq<string>)
    requires PrefixesOpen(prev) && Opened(next, prev, key, siblings) && NonEmpty(Split(key, '/')) != []
    ensures PrefixesOpen(next) && IsOpen(next, Target(key)) <==> Apart(siblings, key)
  {
    hide Above, Target, OpenedBy, Split, NonEmpty;
    OpenedTarget(key);
    if Apart(siblings, key) {
      OpeningKeepsPrefixes(next, prev, key, siblings);
      OpenedStays(siblings, key, prev.Keys, Target(key));
    } else {
      var j :| 0 <= j < |siblings| && siblings[j] != "" && (siblings[j] == Target(key) || Above(siblings[j], Target(key)));
      assert Closes(siblings[j], prev.Keys, siblings[j]);
      assert !IsOpen(next, siblings[j]);
    }
  }

  /** What the opening loop sets has no empty segment. */
  lemma {:induction false} OpeningsReal(segments: seq<string>, done: seq<string>, x: string)
    requires NoSlash(segments) && NoSlash(done) && "" !in done
    requires x in Openings(segments, Join(done, "/"))
    ensures Real(x)
  {
    hide Join, Split;
    assert segments[0] in segments && NoSlash(segments[1..]);
    if segments[0] == "" {
      OpeningsReal(segments[1..], done, x);
    } else {
      var next := done + [segments[0]];
      JoinSnoc(done, segments[0]);
      if done == [] { NoJoin(); } else { JoinNotEmpty(done); }
      assert Join(next, "/") == Extend(Join(done, "/"), segments[0]);
      if x == Join(next, "/") {
        SplitJoin(next, '/');
      } else {
        OpeningsReal(segments[1..], next, x);
      }
    }
  }

  lemma OpenedIsReal(key: string, x: string)
    requires x in OpenedBy(key)
    ensures Real(x)
  {
    hide Join, Openings, Real;
    NoJoin();
    OpeningsReal(Split(key, '/'), [], x);
  }

  /** A closed path asked to open is open afterwards, with every prefix open, exactly when it has no empty
      segment and no sibling is it or a segment prefix of it. */
  lemma PathOpensExactly(next: State, prev: State, key: string, siblings: seq<string>)
    requires PrefixesOpen(prev) && !IsOpen(prev, key) && Opened(next, prev, key, siblings)
    requires NonEmpty(Split(key, '/')) != []
    ensures PrefixesOpen(next) && IsOpen(next, key) <==> Real(key) && Apart(siblings, key)
  {
    hide PrefixesOpen, Above, Real, OpenedBy, Split, NonEmpty, ClosedBy, Apart, Target;
    OpeningExactly(next, prev, key, siblings);
    if key in OpenedBy(key) { OpenedIsReal(key, key); }
    if Real(key) { RealOpensItself(key); }
  }

  /** The items beside the last one of a path. */
  function Level(menu: seq<Item>, path: seq<string>): seq<Item>
    requires path != []
  {
    if |path| == 1 then menu
    else
      var item := FindItemByPath(menu, path[..|path| - 1]);
      if item.Some? && item.value.children.Items? then item.value.children.items else []
  }

  lemma {:induction false} OthersExactly(items: seq<Item>, parent: seq<string>, name: string, p: seq<string>)
    ensures p in Others(items, parent, name) <==>
              exists k :: 0 <= k < |items| && items[k].name != "" && items[k].name != name && p == parent + [items[k].name]
  {
    if items != [] {
      OthersExactly(items[1..], parent, name, p);
      if exists k :: 0 <= k < |items| && items[k].name != "" && items[k].name != name && p == parent + [items[k].name] {
        var k :| 0 <= k < |items| && items[k].name != "" && items[k].name != name && p == parent + [items[k].name];
        if k > 0 { assert items[1..][k - 1] == items[k]; }
      }
      if p in Others(items[1..], parent, name) {
        var k :| 0 <= k < |items[1..]| && items[1..][k].name != "" && items[1..][k].name != name && p == parent + [items[1..][k].name];
        assert items[k + 1] == items[1..][k];
      }
    }
  }

  /** The siblings of a path are the named items beside its last one, other than that. */
  lemma SiblingsExactly(menu: seq<Item>, path: seq<string>, p: seq<string>)
    requires path != []
    ensures var level, parent, name := Level(menu, path), path[..|path| - 1], path[|path| - 1];
            p in SiblingPaths(menu, path) <==>
              exists k :: 0 <= k < |level| && level[k].name != "" && level[k].name != name && p == parent + [level[k].name]
  {
    hide Others;
    OthersExactly(Level(menu, path), path[..|path| - 1], path[|path| - 1], p);
    if |path| == 1 {
      assert path[..0] == [];
    } else if Level(menu, path) == [] {
      NoOthers(path[..|path| - 1], path[|path| - 1]);
    }
  }

  lemma NoOthers(parent: seq<string>, name: string)
    ensures Others([], parent, name) == []
  {
  }

  //-------------------------------------------------------
  // Names with and without a slash
  //-------------------------------------------------------

  /** No name of the table, at any depth, contains a slash. */
  ghost predicate PlainMenu(menu: seq<Item>)
  {
    forall k | 0 <= k < |menu| :: PlainItem(menu[k])
  }

  ghost predicate PlainItem(item: Item)
  {
    '/' !in item.name && match item.children case Leaf => true case Items(items) => forall k | 0 <= k < |items| :: PlainItem(items[k])
  }

  lemma {:induction false} FindPlain(items: seq<Item>, name: string)
    requires forall k | 0 <= k < |items| :: PlainItem(items[k])
    ensures FindItem(items, name).Some? ==> PlainItem(FindItem(items, name).value)
  {
    if items != [] && items[0].name != name { FindPlain(items[1..], name); }
  }

  lemma {:induction false} DescendPlain(current: Option<Item>, path: seq<string>)
    requires current.Some? ==> PlainItem(current.value)
    ensures Descend(current, path).Some? ==> PlainItem(Descend(current, path).value)
    decreases |path|
  {
    if !(path == [] || current.None? || current.value.children.Leaf?) {
      FindPlain(current.value.children.items, path[0]);
      DescendPlain(if path[0] == "" then current else FindItem(current.value.children.items, path[0]), path[1..]);
    }
  }

  lemma {:induction false} OthersPlain(items: seq<Item>, parent: seq<string>, name: string, p: seq<string>)
    requires forall k | 0 <= k < |items| :: PlainItem(items[k])
    requires p in Others(items, parent, name)
    ensures |p| == |parent| + 1 && p[..|parent|] == parent
    ensures p[|parent|] != "" && p[|parent|] != name && '/' !in p[|parent|]
  {
    assert PlainItem(items[0]);
    if p != parent + [items[0].name] || items[0].name == "" || items[0].name == name {
      OthersPlain(items[1..], parent, name, p);
    }
  }

  /** A sibling path is the parent's path and another name. */
  lemma SiblingPlain(menu: seq<Item>, path: seq<string>, p: seq<string>)
    requires PlainMenu(menu) && p in SiblingPaths(menu, path)
    ensures path != [] && |p| == |path| && p[..|p| - 1] == path[..|path| - 1]
    ensures p[|p| - 1] != "" && p[|p| - 1] != path[|path| - 1] && '/' !in p[|p| - 1]
  {
    hide Descend;
    if |path| == 1 {
      OthersPlain(menu, [], path[0], p);
      assert path[..0] == [];
    } else {
      var parent := path[..|path| - 1];
      FindPlain(menu, parent[0]);
      DescendPlain(FindItem(menu, parent[0]), parent[1..]);
      OthersPlain(FindItemByPath(menu, parent).value.children.items, parent, path[|path| - 1], p);
    }
  }

  lemma {:induction false} NonEmptySnoc(names: seq<string>, last: string)
    ensures NonEmpty(names + [last]) == NonEmpty(names) + (if last == "" then [] else [last])
    ensures NoSlash(names) ==> NoSlash(NonEmpty(names)) && "" !in NonEmpty(names)
  {
    if names == [] {
      assert names + [last] == [last];
      assert [last][1..] == [] && NonEmpty([]) == [];
    } else {
      assert (names + [last])[1..] == names[1..] + [last] && (names + [last])[0] == names[0];
      NonEmptySnoc(names[1..], last);
      assert NoSlash(names) ==> NoSlash(names[1..]);
      assert names[0] in names;
    }
  }

  lemma {:induction false} JoinSnoc(pieces: seq<string>, last: string)
    ensures Join(pieces + [last], "/") == if pieces == [] then last else Join(pieces, "/") + "/" + last
  {
    if |pieces| == 1 {
      assert (pieces + [last])[1..] == [last];
    } else if |pieces| > 1 {
      assert (pieces + [last])[1..] == pieces[1..] + [last];
      JoinSnoc(pieces[1..], last);
      assert pieces[0] + "/" + (Join(pieces[1..], "/") + "/" + last) == pieces[0] + "/" + Join(pieces[1..], "/") + "/" + last;
    }
  }

  lemma PlainTarget(pieces: seq<string>)
    requires NoSlash(pieces) && "" !in pieces
    ensures Target(Join(pieces, "/")) == Join(pieces, "/")
  {
    if pieces == [] {
      assert Split("", '/') == [""];
      assert NonEmpty([""]) == [];
    } else {
      hide Join, Split;
      SplitJoin(pieces, '/');
      NothingEmpty(pieces);
    }
  }

  /** Two names after one parent: neither key is the other nor above it. */
  lemma NamesApart(parent: string, a: string, b: string)
    requires '/' !in a && '/' !in b && a != b && a != ""
    ensures var x, y := if parent == "" then a else parent + "/" + a, if parent == "" then b else parent + "/" + b;
            x != y && !Above(x, y)
  {
    var p := if parent == "" then "" else parent + "/";
    var x, y := p + a, p + b;
    assert x[|p|..] == a && y[|p|..] == b;
    assert forall k | 0 <= k < |b| :: b[k] in b;
    if |a| < |b| {
      assert (x + "/")[|x|] == '/';
      assert y[|x|] == b[|a|];
    }
  }

  /** Where no name contains a slash, no sibling ever hides a path: every opening is allowed. */
  lemma PlainNamesAllowed(menu: seq<Item>, path: seq<string>)
    requires PlainMenu(menu) && NoSlash(path)
    ensures Allowed(menu, path)
  {
    hide SiblingPaths, Above, Target;
    forall j | 0 <= j < |SiblingKeys(menu, path)|
      ensures SiblingKeys(menu, path)[j] != Target(PathKey(path)) && !Above(SiblingKeys(menu, path)[j], Target(PathKey(path)))
    {
      PlainSibling(menu, path, SiblingPaths(menu, path)[j]);
    }
  }

  lemma PlainSibling(menu: seq<Item>, path: seq<string>, p: seq<string>)
    requires PlainMenu(menu) && NoSlash(path) && p in SiblingPaths(menu, path)
    ensures PathKey(p) != Target(PathKey(path)) && !Above(PathKey(p), Target(PathKey(path)))
  {
    hide SiblingPaths, Join, NonEmpty, Split;
    SiblingPlain(menu, path, p);
    var parent, a, b := path[..|path| - 1], p[|p| - 1], path[|path| - 1];
    assert p == parent + [a] && path == parent + [b] && NoSlash(parent) && '/' !in b;
    NonEmptySnoc(parent, a);
    NonEmptySnoc(parent, b);
    var above := NonEmpty(parent);
    JoinSnoc(above, a);
    PlainTarget(NonEmpty(path));
    if b != "" {
      JoinSnoc(above, b);
      SharedParent(above, a, b);
    } else {
      assert above + [] == above;
      LongerThanParent(above, a);
    }
  }

  lemma SharedParent(above: seq<string>, a: string, b: string)
    requires NoSlash(above) && "" !in above && '/' !in a && '/' !in b && a != b && a != ""
    ensures Join(above + [a], "/") != Join(above + [b], "/") && !Above(Join(above + [a], "/"), Join(above + [b], "/"))
  {
    hide Above, Join;
    JoinSnoc(above, a);
    JoinSnoc(above, b);
    if above == [] {
      NamesApart("", a, b);
    } else {
      JoinNotEmpty(above);
      NamesApart(Join(above, "/"), a, b);
    }
  }

  lemma JoinNotEmpty(pieces: seq<string>)
    requires pieces != [] && "" !in pieces
    ensures Join(pieces, "/") != ""
  {
    assert pieces[0] in pieces;
  }

  lemma LongerThanParent(above: seq<string>, a: string)
    requires a != ""
    ensures Join(above + [a], "/") != Join(above, "/") && !Above(Join(above + [a], "/"), Join(above, "/"))
  {
    hide Join;
    JoinSnoc(above, a);
    if above == [] { NoJoin(); }
  }

  lemma NoJoin()
    ensures Join([], "/") == ""
  {
  }

  /** A step of a table without slashes in its names: closing everything, or toggling any path of such names. */
  ghost predicate PlainStep(prev: State, next: State, menu: seq<Item>)
  {
    next == map[]
    || exists path: seq<string>, state: Option<bool> :: NoSlash(path) && Toggled(next, prev, menu, path, state)
  }

  lemma PlainStepAllowed(prev: State, next: State, menu: seq<Item>)
    requires PlainMenu(menu) && PlainStep(prev, next, menu)
    ensures Step(prev, next, menu)
  {
    hide Toggled, Allowed, PlainMenu;
    if next != map[] {
      var path: seq<string>, state: Option<bool> :| NoSlash(path) && Toggled(next, prev, menu, path, state);
      PlainNamesAllowed(menu, path);
      assert (Opens(prev, path, state) ==> Allowed(menu, path)) && Toggled(next, prev, menu, path, state);
    }
  }

  /** There, every reachable state whatever has the prefixes of its open keys open. */
  lemma PlainMenusKeepPrefixes(run: seq<State>, menu: seq<Item>)
    requires PlainMenu(menu) && |run| > 0 && run[0] == map[]
    requires forall i | 0 < i < |run| :: PlainStep(run[i - 1], run[i], menu)
    ensures PrefixesOpen(run[|run| - 1])
  {
    hide PlainStep, Step, PrefixesOpen, PlainMenu;
    forall i | 0 < i < |run|
      ensures Step(run[i - 1], run[i], menu)
    {
      PlainStepAllowed(run[i - 1], run[i], menu);
    }
    ReachableKeepsPrefixes(run, menu);
  }

  /** A table whose names hide one: opening `a/b` beside `a` leaves it open under a closed prefix. */
  lemma HidingSibling(next: State)
    requires Toggled(next, map[], HIDING, ["a/b"], Some(true))
    ensures !Allowed(HIDING, ["a/b"]) && IsOpen(next, "a/b") && !IsOpen(next, "a") && !PrefixesOpen(next)
  {
    HidingKeys();
    hide SiblingKeys, PathKey, Target, OpenedBy, NonEmpty, Split;
    assert Above("a", "a/b");
    assert "a/b"[1] == '/';
    var siblings := SiblingKeys(HIDING, ["a/b"]);
    assert siblings[0] == "a";
    assert Closes(siblings[0], {}, "a");
    assert !ClosedBy(siblings, {}, "a/b");
  }

  const HIDING := [Item("a", Leaf), Item("a/b", Leaf)]

  lemma HidingKeys()
    ensures SiblingKeys(HIDING, ["a/b"]) == ["a"] && PathKey(["a/b"]) == "a/b"
    ensures Target("a/b") == "a/b" && "a/b" in OpenedBy("a/b")
  {
    hide Target, OpenedBy, Real;
    HidingSiblings();
    OneName("a");
    OneName("a/b");
    SlashedReal();
    RealOpensItself("a/b");
  }

  lemma OneName(name: string)
    requires name != ""
    ensures PathKey([name]) == name
  {
    assert [name][1..] == [] && NonEmpty([name]) == [name];
  }

  lemma HidingSiblings()
    ensures SiblingPaths(HIDING, ["a/b"]) == [["a"]]
  {
    assert HIDING[1..][1..] == [] && HIDING[1..][0].name == "a/b" && |"a"| != |"a/b"|;
    assert Others(HIDING[1..], [], "a/b") == [];
    assert Others(HIDING, [], "a/b") == [[] + ["a"]];
    var parent: seq<string>, names := [], ["a"];
    assert parent + names == names;
  }

  lemma SlashedReal()
    ensures Real("a/b")
  {
    SplitFirst("a", "b", '/');
    assert "a" + "/" + "b" == "a/b";
    SplitNone("b", '/');
  }
}
