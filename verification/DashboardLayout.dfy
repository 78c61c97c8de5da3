/** `stackRows` and `reconcileDashboardLayout`, over real grid units. */
module DashboardLayout {
  import opened Text

  datatype Card = Card(i: string, x: real, y: real, w: real, h: real)

  //-------------------------------------------------------
  // Stacking rows
  //-------------------------------------------------------

  datatype RowCard = RowCard(i: string, x: real, w: real)
  datatype Row = Row(h: real, cards: seq<RowCard>)

  function Place(c: RowCard, y: real, h: real): Card { Card(c.i, c.x, y, c.w, h) }

  /** Where row `r` starts: the exact end of the rows above it. */
  function Start(rows: seq<Row>, startY: real, r: nat): real
    requires r <= |rows|
  {
    if r == 0 then startY else Start(rows, startY, r - 1) + rows[r - 1].h
  }

  /** The heights of the first `n` rows. */
  function Heights(rows: seq<Row>, n: nat): real
    requires n <= |rows|
  {
    if n == 0 then 0.0 else Heights(rows, n - 1) + rows[n - 1].h
  }

  function CountCards(rows: seq<Row>, n: nat): nat
    requires n <= |rows|
  {
    if n == 0 then 0 else CountCards(rows, n - 1) + |rows[n - 1].cards|
  }

  /** Card `k` of row `r` is placed, at the start of its row. */
  ghost predicate Placed(layout: seq<Card>, rows: seq<Row>, startY: real, r: nat, k: nat)
    requires r < |rows| && k < |rows[r].cards|
  {
    var at := CountCards(rows, r) + k;
    at < |layout| && layout[at] == Place(rows[r].cards[k], Start(rows, startY, r), rows[r].h)
  }

  ghost predicate RowsPlaced(layout: seq<Card>, rows: seq<Row>, startY: real, n: nat)
    requires n <= |rows|
  {
    forall r, k | 0 <= r < n && 0 <= k < |rows[r].cards| :: Placed(layout, rows, startY, r, k)
  }

  lemma OneMoreRow(before: seq<Card>, layout: seq<Card>, rows: seq<Row>, startY: real, n: nat)
    requires n < |rows| && RowsPlaced(before, rows, startY, n) && before <= layout && |before| == CountCards(rows, n)
    requires forall k | 0 <= k < |rows[n].cards| ::
               |before| + k < |layout| && layout[|before| + k] == Place(rows[n].cards[k], Start(rows, startY, n), rows[n].h)
    ensures RowsPlaced(layout, rows, startY, n + 1)
  {
    forall r, k | 0 <= r < n + 1 && 0 <= k < |rows[r].cards|
      ensures Placed(layout, rows, startY, r, k)
    {
      var at := CountCards(rows, r) + k;
      if r < n {
        assert Placed(before, rows, startY, r, k);
        assert layout[at] == before[at];
      } else {
        assert Place(rows[n].cards[k], Start(rows, startY, n), rows[n].h) == layout[|before| + k];
      }
    }
  }

  /** Every card stands at the start of its row, and the layout ends at the start plus all heights. */
  method StackRows(rows: seq<Row>, startY: real) returns (layout: seq<Card>, endY: real)
    ensures endY == Start(rows, startY, |rows|) == startY + Heights(rows, |rows|)
    ensures |layout| == CountCards(rows, |rows|) && RowsPlaced(layout, rows, startY, |rows|)
  {
    layout := [];
    var y := startY;
    for n := 0 to |rows|
      invariant y == Start(rows, startY, n) == startY + Heights(rows, n) && |layout| == CountCards(rows, n)
      invariant RowsPlaced(layout, rows, startY, n)
    {
      var row := rows[n];
      ghost var before := layout;
      for m := 0 to |row.cards|
        invariant |layout| == |before| + m && before <= layout
        invariant forall k | 0 <= k < m :: layout[|before| + k] == Place(row.cards[k], y, row.h)
      {
        layout := layout + [Place(row.cards[m], y, row.h)];
      }
      OneMoreRow(before, layout, rows, startY, n);
      y := y + row.h;
    }
    endY := y;
  }

  /** No vertical gap: a card of one row reaches exactly down to where the next row's cards, or the end, begin. */
  lemma RowsTouch(layout: seq<Card>, rows: seq<Row>, startY: real, r: nat, k: nat, j: nat)
    requires r < |rows| && k < |rows[r].cards| && RowsPlaced(layout, rows, startY, |rows|)
    ensures var at := CountCards(rows, r) + k;
            at < |layout| && layout[at].y + layout[at].h == Start(rows, startY, r + 1)
    ensures r + 1 < |rows| && j < |rows[r + 1].cards| ==>
              var at, below := CountCards(rows, r) + k, CountCards(rows, r + 1) + j;
              below < |layout| && layout[below].y == layout[at].y + layout[at].h
  {
    assert Placed(layout, rows, startY, r, k);
    if r + 1 < |rows| && j < |rows[r + 1].cards| { assert Placed(layout, rows, startY, r + 1, j); }
  }

  //-------------------------------------------------------
  // Reconciling a saved layout
  //-------------------------------------------------------

  /** An element of the persisted array: a well-formed item, or anything else. */
  datatype Entry = Malformed | Item(card: Card)

  predicate HasKey(cards: seq<Card>, key: string) { exists k :: 0 <= k < |cards| && cards[k].i == key }

  predicate Usable(e: Entry, kept: seq<Card>, defaults: seq<Card>)
  {
    e.Item? && HasKey(defaults, e.card.i) && !HasKey(kept, e.card.i)
  }

  /** The first well-formed entry of every wanted key. */
  function Kept(saved: seq<Entry>, defaults: seq<Card>): seq<Card>
  {
    if saved == [] then []
    else
      var kept, e := Kept(saved[..|saved| - 1], defaults), saved[|saved| - 1];
      if Usable(e, kept, defaults) then kept + [e.card] else kept
  }

  function Missing(defaults: seq<Card>, kept: seq<Card>): seq<Card>
  {
    if defaults == [] then []
    else
      var missing, d := Missing(defaults[..|defaults| - 1], kept), defaults[|defaults| - 1];
      if HasKey(kept, d.i) then missing else missing + [d]
  }

  function Max(a: real, b: real): real { if a > b then a else b }

  function Bottom(cards: seq<Card>): real
  {
    if cards == [] then 0.0
    else Max(Bottom(cards[..|cards| - 1]), cards[|cards| - 1].y + cards[|cards| - 1].h)
  }

  /** `cards` followed by `added`, each on its own row below everything before it. */
  function Append(cards: seq<Card>, y: real, added: seq<Card>): seq<Card>
    decreases |added|
  {
    if added == [] then cards else Append(cards + [added[0].(y := y)], y + added[0].h, added[1..])
  }

  datatype Result = Result(layout: seq<Card>, changed: bool)

  function Reconciled(saved: Option<seq<Entry>>, defaults: seq<Card>): Result
  {
    if saved.None? then Result(defaults, true)
    else
      var kept := Kept(saved.value, defaults);
      var missing := Missing(defaults, kept);
      if kept == [] then Result(defaults, true)
      else Result(Append(kept, Bottom(kept), missing), |kept| < |saved.value| || missing != [])
  }

  method Reconcile(saved: Option<seq<Entry>>, defaults: seq<Card>) returns (r: Result)
    ensures r == Reconciled(saved, defaults)
  {
    if saved.None? { return Result(defaults, true); }
    var kept, dropped := [], false;
    ghost var s := saved.value;
    for n := 0 to |saved.value|
      invariant kept == Kept(s[..n], defaults) && |kept| <= n && (dropped <==> |kept| < n)
    {
      assert s[..n + 1][..n] == s[..n];
      var item := saved.value[n];
      if item.Malformed? || !HasKey(defaults, item.card.i) || HasKey(kept, item.card.i) {
        dropped := true;
      } else {
        kept := kept + [item.card];
      }
    }
    assert s[..|s|] == s;
    if kept == [] { return Result(defaults, true); }
    var missing := [];
    for n := 0 to |defaults|
      invariant missing == Missing(defaults[..n], kept)
    {
      assert defaults[..n + 1][..n] == defaults[..n];
      if !HasKey(kept, defaults[n].i) { missing := missing + [defaults[n]]; }
    }
    assert defaults[..|defaults|] == defaults;
    var nextY := 0.0;
    for n := 0 to |kept|
      invariant nextY == Bottom(kept[..n])
    {
      assert kept[..n + 1][..n] == kept[..n];
      nextY := Max(nextY, kept[n].y + kept[n].h);
    }
    assert kept[..|kept|] == kept;
    var layout := kept;
    ghost var goal := Append(kept, nextY, missing);
    for n := 0 to |missing|
      invariant Append(layout, nextY, missing[n..]) == goal
    {
      var d := missing[n];
      assert missing[n..][1..] == missing[n + 1..];
      layout := layout + [d.(y := nextY)];
      nextY := nextY + d.h;
    }
    r := Result(layout, dropped || |missing| > 0);
  }

  //-------------------------------------------------------
  // What a reconciled layout is
  //-------------------------------------------------------

  ghost predicate DistinctKeys(cards: seq<Card>)
  {
    forall a, b | 0 <= a < b < |cards| :: cards[a].i != cards[b].i
  }

  ghost predicate SameKeys(a: seq<Card>, b: seq<Card>)
  {
    forall key :: HasKey(a, key) <==> HasKey(b, key)
  }

  /** Defaults as the registry builds them: some cards, no key twice, positive heights. */
  ghost predicate Sound(defaults: seq<Card>)
  {
    defaults != [] && DistinctKeys(defaults) && forall k | 0 <= k < |defaults| :: defaults[k].h > 0.0
  }

  lemma KeySnoc(cards: seq<Card>, c: Card, key: string)
    ensures HasKey(cards + [c], key) <==> HasKey(cards, key) || c.i == key
  {
    if HasKey(cards, key) {
      var k :| 0 <= k < |cards| && cards[k].i == key;
      assert (cards + [c])[k].i == key;
    }
    assert (cards + [c])[|cards|] == c;
  }

  lemma {:induction false} KeptKeys(saved: seq<Entry>, defaults: seq<Card>)
    ensures DistinctKeys(Kept(saved, defaults)) && |Kept(saved, defaults)| <= |saved|
    ensures forall key | HasKey(Kept(saved, defaults), key) :: HasKey(defaults, key)
  {
    if saved != [] {
      var before, e := saved[..|saved| - 1], saved[|saved| - 1];
      KeptKeys(before, defaults);
      if Usable(e, Kept(before, defaults), defaults) {
        forall key | HasKey(Kept(saved, defaults), key)
          ensures HasKey(defaults, key)
        {
          KeySnoc(Kept(before, defaults), e.card, key);
        }
      }
    }
  }

  /** Entry `k` is the first well-formed entry of its key. */
  ghost predicate FirstOf(saved: seq<Entry>, k: nat)
  {
    k < |saved| && saved[k].Item?
    && forall j | 0 <= j < k && saved[j].Item? :: saved[j].card.i != saved[k].card.i
  }

  lemma {:induction false} KeptFirst(saved: seq<Entry>, defaults: seq<Card>, k: nat)
    requires FirstOf(saved, k) && HasKey(defaults, saved[k].card.i)
    ensures saved[k].card in Kept(saved, defaults)
    decreases |saved|
  {
    var n := |saved| - 1;
    if k < n {
      KeptFirst(saved[..n], defaults, k);
    } else {
      NotKept(saved[..n], defaults, saved[n].card.i);
    }
  }

  lemma {:induction false} NotKept(saved: seq<Entry>, defaults: seq<Card>, key: string)
    requires forall j | 0 <= j < |saved| && saved[j].Item? :: saved[j].card.i != key
    ensures !HasKey(Kept(saved, defaults), key)
  {
    if saved != [] {
      var before, e := saved[..|saved| - 1], saved[|saved| - 1];
      NotKept(before, defaults, key);
      if Usable(e, Kept(before, defaults), defaults) { KeySnoc(Kept(before, defaults), e.card, key); }
    }
  }

  lemma {:induction false} MissingKeys(defaults: seq<Card>, kept: seq<Card>)
    requires DistinctKeys(defaults)
    ensures DistinctKeys(Missing(defaults, kept))
    ensures forall key :: HasKey(Missing(defaults, kept), key) <==> HasKey(defaults, key) && !HasKey(kept, key)
    ensures forall d | d in Missing(defaults, kept) :: d in defaults
  {
    if defaults != [] {
      var before, d := defaults[..|defaults| - 1], defaults[|defaults| - 1];
      assert defaults == before + [d];
      MissingKeys(before, kept);
      forall key
        ensures HasKey(Missing(defaults, kept), key) <==> HasKey(defaults, key) && !HasKey(kept, key)
      {
        KeySnoc(before, d, key);
        KeySnoc(Missing(before, kept), d, key);
      }
      NewKey(before, d);
    }
  }

  lemma NewKey(before: seq<Card>, d: Card)
    requires DistinctKeys(before + [d])
    ensures !HasKey(before, d.i)
  {
    assert (before + [d])[|before|] == d;
    forall k | 0 <= k < |before|
      ensures before[k].i != d.i
    {
      assert (before + [d])[k] == before[k];
    }
  }

  //-------------------------------------------------------
  // Appending
  //-------------------------------------------------------

  /** `cards` from position `n` on each lie below everything before them. */
  ghost predicate Below(cards: seq<Card>, n: nat)
  {
    forall a, b | 0 <= a < b < |cards| && n <= b :: cards[a].y + cards[a].h <= cards[b].y
  }

  ghost predicate AllEndBy(cards: seq<Card>, y: real)
  {
    forall k | 0 <= k < |cards| :: cards[k].y + cards[k].h <= y
  }

  lemma {:induction false} BottomBounds(cards: seq<Card>)
    ensures AllEndBy(cards, Bottom(cards))
  {
    if cards != [] { BottomBounds(cards[..|cards| - 1]); }
  }

  lemma {:induction false} AppendBelow(cards: seq<Card>, y: real, added: seq<Card>, n: nat)
    requires n <= |cards| && Below(cards, n) && AllEndBy(cards, y)
    requires forall k | 0 <= k < |added| :: added[k].h > 0.0
    ensures var r := Append(cards, y, added);
            |r| == |cards| + |added| && cards <= r && Below(r, n)
            && forall k | 0 <= k < |added| :: r[|cards| + k] == added[k].(y := r[|cards| + k].y)
    decreases |added|
  {
    if added != [] {
      var more := cards + [added[0].(y := y)];
      AppendBelow(more, y + added[0].h, added[1..], n);
      var r := Append(cards, y, added);
      assert r[|cards|] == more[|cards|];
      forall k | 0 <= k < |added|
        ensures r[|cards| + k] == added[k].(y := r[|cards| + k].y)
      {
        assert k > 0 ==> r[|more| + (k - 1)] == added[1..][k - 1].(y := r[|more| + (k - 1)].y);
      }
    }
  }

  lemma KeysByPosition(a: seq<Card>, b: seq<Card>, key: string)
    requires |a| == |b| && forall k | 0 <= k < |a| :: a[k].i == b[k].i
    ensures HasKey(a, key) <==> HasKey(b, key)
  {
  }

  lemma KeysConcat(a: seq<Card>, b: seq<Card>)
    requires DistinctKeys(a) && DistinctKeys(b) && forall key :: HasKey(b, key) ==> !HasKey(a, key)
    ensures DistinctKeys(a + b)
    ensures forall key :: HasKey(a + b, key) <==> HasKey(a, key) || HasKey(b, key)
  {
    var c := a + b;
    forall i, j | 0 <= i < j < |c|
      ensures c[i].i != c[j].i
    {
      if i < |a| <= j {
        assert HasKey(b, b[j - |a|].i);
      }
    }
    forall key
      ensures HasKey(c, key) <==> HasKey(a, key) || HasKey(b, key)
    {
      if HasKey(a, key) {
        var k :| 0 <= k < |a| && a[k].i == key;
        assert c[k].i == key;
      }
      if HasKey(b, key) {
        var k :| 0 <= k < |b| && b[k].i == key;
        assert c[|a| + k].i == key;
      }
    }
  }

  //-------------------------------------------------------
  // Main results
  //-------------------------------------------------------

  lemma {:induction false} AllDefaultsPositive(defaults: seq<Card>, kept: seq<Card>)
    requires Sound(defaults)
    ensures forall k | 0 <= k < |Missing(defaults, kept)| :: Missing(defaults, kept)[k].h > 0.0
  {
    MissingKeys(defaults, kept);
    forall k | 0 <= k < |Missing(defaults, kept)|
      ensures Missing(defaults, kept)[k].h > 0.0
    {
      assert Missing(defaults, kept)[k] in defaults;
    }
  }

  /** What appending the missing cards to the kept ones gives. */
  lemma Layout(saved: seq<Entry>, defaults: seq<Card>)
    requires Sound(defaults) && Kept(saved, defaults) != []
    ensures var kept, r := Kept(saved, defaults), Reconciled(Some(saved), defaults).layout;
            && kept <= r && Below(r, |kept|)
            && |r| == |kept| + |Missing(defaults, kept)|
            && forall k | 0 <= k < |r| - |kept| ::
                 r[|kept| + k] == Missing(defaults, kept)[k].(y := r[|kept| + k].y)
  {
    hide Kept, Missing, Bottom, Append;
    var kept := Kept(saved, defaults);
    BottomBounds(kept);
    AllDefaultsPositive(defaults, kept);
    AppendBelow(kept, Bottom(kept), Missing(defaults, kept), |kept|);
  }

  /** Every default key is in the result exactly once, and nothing else is. */
  lemma EachKeyOnce(saved: Option<seq<Entry>>, defaults: seq<Card>)
    requires Sound(defaults)
    ensures var layout := Reconciled(saved, defaults).layout;
            DistinctKeys(layout) && SameKeys(layout, defaults)
  {
    hide Kept, Missing, HasKey, Below, Append, Bottom, DistinctKeys;
    if saved.Some? && Kept(saved.value, defaults) != [] {
      KeptAndMissing(saved.value, defaults);
    }
  }

  lemma KeptAndMissing(saved: seq<Entry>, defaults: seq<Card>)
    requires Sound(defaults) && Kept(saved, defaults) != []
    ensures var layout := Reconciled(Some(saved), defaults).layout;
            DistinctKeys(layout) && SameKeys(layout, defaults)
  {
    hide Kept, Missing, Reconciled, HasKey, DistinctKeys;
    var kept, missing := Kept(saved, defaults), Missing(defaults, Kept(saved, defaults));
    Positions(saved, defaults);
    KeptKeys(saved, defaults);
    MissingKeys(defaults, kept);
    KeysOnce(Reconciled(Some(saved), defaults).layout, kept, missing, defaults);
  }

  lemma Positions(saved: seq<Entry>, defaults: seq<Card>)
    requires Sound(defaults) && Kept(saved, defaults) != []
    ensures SameIds(Reconciled(Some(saved), defaults).layout, Kept(saved, defaults) + Missing(defaults, Kept(saved, defaults)))
  {
    hide Kept, Missing, Reconciled, HasKey, Below, SameIds;
    Layout(saved, defaults);
    SameTail(Reconciled(Some(saved), defaults).layout, Kept(saved, defaults), Missing(defaults, Kept(saved, defaults)));
  }

  lemma SameTail(r: seq<Card>, kept: seq<Card>, missing: seq<Card>)
    requires kept <= r && |r| == |kept| + |missing|
    requires forall k | 0 <= k < |r| - |kept| :: r[|kept| + k] == missing[k].(y := r[|kept| + k].y)
    ensures SameIds(r, kept + missing)
  {
    forall k | 0 <= k < |r|
      ensures r[k].i == (kept + missing)[k].i
    {
      if k >= |kept| { assert r[|kept| + (k - |kept|)] == r[k]; }
    }
  }

  /** The same keys at the same positions. */
  ghost predicate SameIds(a: seq<Card>, b: seq<Card>)
  {
    |a| == |b| && forall k | 0 <= k < |a| :: a[k].i == b[k].i
  }

  lemma KeysOnce(layout: seq<Card>, kept: seq<Card>, missing: seq<Card>, defaults: seq<Card>)
    requires SameIds(layout, kept + missing) && DistinctKeys(kept) && DistinctKeys(missing)
    requires forall key | HasKey(kept, key) :: HasKey(defaults, key)
    requires forall key :: HasKey(missing, key) <==> HasKey(defaults, key) && !HasKey(kept, key)
    ensures DistinctKeys(layout) && SameKeys(layout, defaults)
  {
    hide HasKey, DistinctKeys;
    KeysConcat(kept, missing);
    SamePositions(layout, kept + missing);
  }

  lemma SamePositions(a: seq<Card>, b: seq<Card>)
    requires SameIds(a, b)
    ensures SameKeys(a, b) && (DistinctKeys(b) ==> DistinctKeys(a))
  {
    forall key
      ensures HasKey(a, key) <==> HasKey(b, key)
    {
      KeysByPosition(a, b, key);
    }
    hide HasKey;
  }

  /** The first valid saved geometry of every wanted card survives, as soon as any card's does. */
  lemma FirstGeometryKept(saved: seq<Entry>, defaults: seq<Card>, k: nat)
    requires Sound(defaults) && FirstOf(saved, k) && HasKey(defaults, saved[k].card.i)
    ensures saved[k].card in Reconciled(Some(saved), defaults).layout
  {
    hide Reconciled, Kept, Missing, Below;
    KeptFirst(saved, defaults, k);
    Layout(saved, defaults);
  }

  predicate Overlap(a: Card, b: Card)
  {
    && a.x < b.x + b.w && b.x < a.x + a.w
    && a.y < b.y + b.h && b.y < a.y + a.h
  }

  /** An added card overlaps no card: everything kept and everything added before it ends above it. */
  lemma AddedOverlapNothing(saved: seq<Entry>, defaults: seq<Card>, a: nat, b: nat)
    requires Sound(defaults) && Kept(saved, defaults) != []
    requires a < b < |Reconciled(Some(saved), defaults).layout| && b >= |Kept(saved, defaults)|
    ensures var layout := Reconciled(Some(saved), defaults).layout;
            layout[a].y + layout[a].h <= layout[b].y && !Overlap(layout[a], layout[b])
  {
    hide Reconciled, Kept, Missing;
    Layout(saved, defaults);
  }

  function Items(cards: seq<Card>): (r: seq<Entry>)
    ensures |r| == |cards| && forall k | 0 <= k < |r| :: r[k] == Item(cards[k])
  {
    seq(|cards|, k requires 0 <= k < |cards| => Item(cards[k]))
  }

  lemma {:induction false} KeptItems(cards: seq<Card>, defaults: seq<Card>)
    requires DistinctKeys(cards) && forall key :: HasKey(cards, key) ==> HasKey(defaults, key)
    ensures Kept(Items(cards), defaults) == cards
  {
    if cards != [] {
      var before, c := cards[..|cards| - 1], cards[|cards| - 1];
      assert cards == before + [c] && Items(cards)[..|cards| - 1] == Items(before);
      forall key | HasKey(before, key)
        ensures HasKey(defaults, key)
      {
        KeySnoc(before, c, key);
      }
      KeptItems(before, defaults);
      KeySnoc(before, c, c.i);
      NewKey(before, c);
    }
  }

  lemma {:induction false} NothingMissing(defaults: seq<Card>, kept: seq<Card>)
    requires forall key :: HasKey(defaults, key) ==> HasKey(kept, key)
    ensures Missing(defaults, kept) == []
  {
    if defaults != [] {
      var before, d := defaults[..|defaults| - 1], defaults[|defaults| - 1];
      assert defaults == before + [d];
      forall key | HasKey(before, key)
        ensures HasKey(kept, key)
      {
        KeySnoc(before, d, key);
      }
      NothingMissing(before, kept);
      KeySnoc(before, d, d.i);
    }
  }

  lemma CompleteIsFixed(layout: seq<Card>, defaults: seq<Card>)
    requires defaults != [] && DistinctKeys(layout) && SameKeys(layout, defaults)
    ensures Reconciled(Some(Items(layout)), defaults) == Result(layout, false)
  {
    KeptItems(layout, defaults);
    NothingMissing(defaults, layout);
    assert HasKey(defaults, defaults[0].i);
    hide Kept, Missing;
    assert HasKey(layout, defaults[0].i);
  }

  /** Reconciling a reconciled layout changes nothing. */
  lemma ReconcileIdempotent(saved: Option<seq<Entry>>, defaults: seq<Card>)
    requires Sound(defaults)
    ensures var layout := Reconciled(saved, defaults).layout;
            Reconciled(Some(Items(layout)), defaults) == Result(layout, false)
  {
    hide Reconciled, SameKeys;
    EachKeyOnce(saved, defaults);
    CompleteIsFixed(Reconciled(saved, defaults).layout, defaults);
  }

  lemma {:induction false} AllKept(saved: seq<Entry>, defaults: seq<Card>)
    requires |Kept(saved, defaults)| == |saved|
    ensures Items(Kept(saved, defaults)) == saved
  {
    if saved != [] {
      var before, e := saved[..|saved| - 1], saved[|saved| - 1];
      KeptKeys(before, defaults);
      AllKept(before, defaults);
      assert saved == before + [e];
      assert Items(Kept(before, defaults) + [e.card]) == Items(Kept(before, defaults)) + [e];
    }
  }

  /** `changed` says exactly that the result differs from what was saved. */
  lemma ChangedIffDifferent(saved: Option<seq<Entry>>, defaults: seq<Card>)
    requires Sound(defaults)
    ensures var r := Reconciled(saved, defaults); r.changed <==> saved != Some(Items(r.layout))
  {
    var r := Reconciled(saved, defaults);
    if saved == Some(Items(r.layout)) {
      ReconcileIdempotent(saved, defaults);
    }
    if !r.changed {
      KeptKeys(saved.value, defaults);
      AllKept(saved.value, defaults);
    }
  }
}
