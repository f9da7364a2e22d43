/** The elastic Lateral-as-Window queue at operation level.  The lateral is the list of all windows;
    each has its own max, width and depth, and a new one takes whatever width and depth are set when
    the put side fills the last one.  A sub-queue left out of a window skips its rows, and both sides
    close the gap at the bottom of the next window the sub-queue takes part in. */
module LawQueue {
  import opened Relaxation
  import opened Search
  import opened LateralWindows

  /** The windows from the first to the tail, the lateral's head, the counts and items of each
      sub-queue, and the list of all items in the order they were enqueued (`win` is the position
      of an item's window in the lateral). */
  datatype View = View(maxWidth: nat, wins: seq<Win>, head: nat, put: seq<nat>, get: seq<nat>, sub: seq<seq<Item>>,
                       order: seq<Item>) {
    function Tail(): nat requires |wins| >= 1 { |wins| - 1 }
  }

  ghost predicate Shaped(v: View) {
    && Lateral(v.wins, v.maxWidth) && v.head < v.Tail()
    && |v.put| == |v.get| == |v.sub| == v.maxWidth
    && (forall i :: 0 <= i < v.maxWidth ==> v.get[i] <= v.put[i] <= v.wins[v.Tail()].max)
    && (forall i :: 0 <= i < v.maxWidth ==> v.get[i] <= v.wins[v.head + 1].max)
    && (forall i :: 0 <= i < v.maxWidth ==> (v.sub[i] == [] <==> v.get[i] == v.put[i]))
  }

  /** Every window before the tail was filled: each of its sub-queues got past its last row. */
  ghost predicate Complete(v: View) requires Shaped(v) {
    forall k, i :: 0 < k < v.Tail() && 0 <= i < v.maxWidth ==> Filled(v, k, i)
  }

  ghost predicate Filled(v: View, k: nat, i: nat) requires Shaped(v) && k <= v.Tail() && i < v.maxWidth {
    i < v.wins[k].width ==> v.wins[k].max <= v.put[i]
  }

  /** y is the item that comes next after row r in sub-queue i, with every gap closed: the row above
      r or the bottom row of y's window, and no window in between had room for sub-queue i. */
  ghost predicate Follows(wins: seq<Win>, i: nat, r: nat, y: Item) {
    && y.q == i && 0 < y.win < |wins| && i < wins[y.win].width
    && y.row == NextRow(wins[y.win], r) <= wins[y.win].max
    && forall k :: 0 < k < y.win ==> NoRoom(wins, i, r, k)
  }

  ghost predicate NoRoom(wins: seq<Win>, i: nat, r: nat, k: nat) requires k < |wins| {
    r < wins[k].max ==> wins[k].width <= i
  }

  function Prev(low: nat, s: seq<Item>, m: nat): nat requires m <= |s| {
    if m == 0 then low else s[m - 1].row
  }

  ghost predicate Link(wins: seq<Win>, i: nat, low: nat, s: seq<Item>, m: nat) {
    m < |s| && low < s[m].row && Follows(wins, i, Prev(low, s, m), s[m])
  }

  /** The items of sub-queue i lead from its get count to its put count, one following the other. */
  ghost predicate Chain(wins: seq<Win>, i: nat, low: nat, high: nat, s: seq<Item>) {
    && Prev(low, s, |s|) == high
    && (forall m :: 0 <= m < |s| ==> Link(wins, i, low, s, m))
    && (forall m, n :: 0 <= m < n < |s| ==> s[m].row < s[n].row)
  }

  lemma ChainGrow(wins: seq<Win>, w: Win, i: nat, low: nat, high: nat, s: seq<Item>)
    requires Chain(wins, i, low, high, s)
    ensures Chain(wins + [w], i, low, high, s)
  {
    forall m | 0 <= m < |s| ensures Link(wins + [w], i, low, s, m) {
      assert Link(wins, i, low, s, m);
      forall k | 0 < k < s[m].win
        ensures NoRoom(wins + [w], i, Prev(low, s, m), k)
      {
        assert NoRoom(wins, i, Prev(low, s, m), k);
      }
    }
  }

  lemma ChainAppend(wins: seq<Win>, i: nat, low: nat, high: nat, s: seq<Item>, x: Item)
    requires Chain(wins, i, low, high, s) && Follows(wins, i, high, x)
    ensures Chain(wins, i, low, x.row, s + [x])
  {
    var s1 := s + [x];
    assert |s| > 0 ==> Link(wins, i, low, s, |s| - 1);
    forall m | 0 <= m < |s1| ensures Link(wins, i, low, s1, m) {
      if m < |s| { assert Link(wins, i, low, s, m); }
    }
  }

  lemma ChainDrop(wins: seq<Win>, i: nat, low: nat, high: nat, s: seq<Item>)
    requires Chain(wins, i, low, high, s) && s != []
    ensures Chain(wins, i, s[0].row, high, s[1..])
  {
    var s1 := s[1..];
    forall m | 0 <= m < |s1| ensures Link(wins, i, s[0].row, s1, m) {
      assert Link(wins, i, low, s, m + 1);
    }
  }

  ghost predicate Chained(v: View) requires Shaped(v) {
    forall i {:trigger Chain(v.wins, i, v.get[i], v.put[i], v.sub[i])} :: 0 <= i < v.maxWidth ==>
        Chain(v.wins, i, v.get[i], v.put[i], v.sub[i])
  }

  ghost predicate Filed(v: View) requires Shaped(v) {
    forall i, m {:trigger v.sub[i][m] in v.order} :: 0 <= i < v.maxWidth && 0 <= m < |v.sub[i]| ==>
        v.sub[i][m] in v.order
  }

  ghost predicate Placed(v: View, x: Item) requires Shaped(v) {
    && x.q < v.maxWidth && x in v.sub[x.q] && v.get[x.q] < x.row <= v.put[x.q]
    && v.head < x.win <= v.Tail() && x.q < v.wins[x.win].width
    && Bottom(v.wins[x.win]) < x.row <= v.wins[x.win].max
  }

  ghost predicate Before(x: Item, y: Item) {
    x.win <= y.win && (x.q == y.q ==> x.row < y.row)
  }

  ghost predicate Listed(v: View) requires Shaped(v) {
    forall a {:trigger Placed(v, v.order[a])} :: 0 <= a < |v.order| ==> Placed(v, v.order[a])
  }

  ghost predicate Ordered(order: seq<Item>) {
    forall a, b {:trigger Before(order[a], order[b])} :: 0 <= a < b < |order| ==> Before(order[a], order[b])
  }

  ghost predicate Ok(v: View) {
    Shaped(v) && Complete(v) && Chained(v) && Filed(v) && Listed(v) && Ordered(v.order)
  }

  // ---------------------------------------------------------------------------------------------
  // The decisions of the get side

  /** The put count the get search uses: a shortcut once the tail is ahead. */
  function SeenPut(v: View, i: nat): nat
    requires Shaped(v) && i < v.maxWidth
  {
    if v.wins[v.Tail()].max > v.wins[v.head + 1].max then Bottom(v.wins[v.Tail()]) else v.put[i]
  }

  predicate Takeable(v: View, i: nat)
    requires Shaped(v) && i < v.maxWidth
  {
    v.get[i] < v.wins[v.head + 1].max && v.get[i] < SeenPut(v, i)
  }

  ghost predicate Drained(v: View) requires Shaped(v) {
    forall i :: 0 <= i < v.wins[v.head + 1].width ==> !Takeable(v, i)
  }

  /** Inside the get window the shortcut decides as the put count would, which is exactly whether
      the sub-queue has an item in the window; and dequeue then computes that item's own row. */
  lemma ShortcutExact(v: View, i: nat)
    requires Ok(v) && i < v.wins[v.head + 1].width
    ensures Takeable(v, i) <==> v.get[i] < v.wins[v.head + 1].max && v.get[i] < v.put[i]
    ensures Takeable(v, i) <==> v.sub[i] != [] && v.sub[i][0].win == v.head + 1
    ensures Takeable(v, i) ==> v.sub[i][0].row == NextRow(v.wins[v.head + 1], v.get[i])
  {
    var g := v.head + 1;
    assert Chain(v.wins, i, v.get[i], v.put[i], v.sub[i]);
    if g < v.Tail() {
      assert Filled(v, g, i) && Above(v.wins, g, v.Tail());
    }
    if v.sub[i] != [] {
      var y := v.sub[i][0];
      assert Link(v.wins, i, v.get[i], v.sub[i], 0);
      assert v.sub[i][0] in v.order;
      InOrder(v, y);
      if y.win > g { assert NoRoom(v.wins, i, v.get[i], g); }
    }
  }

  lemma InOrder(v: View, x: Item)
    requires Ok(v) && x in v.order
    ensures Placed(v, x)
  {
    var a :| 0 <= a < |v.order| && v.order[a] == x;
    assert Placed(v, v.order[a]);
  }

  /** When no sub-queue of the get window has an item in it, no item is left in it at all. */
  lemma WindowDrained(v: View, x: Item)
    requires Ok(v) && x in v.order && Drained(v)
    ensures x.win > v.head + 1
  {
    InOrder(v, x);
    if x.win == v.head + 1 {
      ShortcutExact(v, x.q);
    }
  }

  /** A window before the tail always has an item to offer when the get side reaches it. */
  lemma FreshWindow(v: View)
    requires Ok(v) && v.head + 1 < v.Tail() && v.get[0] <= v.wins[v.head].max
    ensures Takeable(v, 0)
  {
    assert Adjacent(v.wins[v.head], v.wins[v.head + 1]) && Filled(v, v.head + 1, 0);
    ShortcutExact(v, 0);
  }

  // ---------------------------------------------------------------------------------------------
  // What each change keeps

  function Grown(v: View, w: Win): View { v.(wins := v.wins + [w]) }
  function Advanced(v: View): View { v.(head := v.head + 1) }

  function Enqueued(v: View, x: Item): View
    requires Shaped(v) && x.q < v.maxWidth
  {
    v.(put := v.put[x.q := x.row], sub := v.sub[x.q := v.sub[x.q] + [x]], order := v.order + [x])
  }

  function Dequeued(v: View, i: nat, k: nat): View
    requires Shaped(v) && i < v.maxWidth && v.sub[i] != [] && k < |v.order|
  {
    v.(get := v.get[i := v.sub[i][0].row], sub := v.sub[i := v.sub[i][1..]], order := Without(v.order, k))
  }

  /** Every sub-queue of the tail window has reached its max. */
  ghost predicate Full(v: View) requires Shaped(v) {
    forall i :: 0 <= i < v.wins[v.Tail()].width ==> v.wins[v.Tail()].max <= v.put[i]
  }

  lemma GrowShaped(v: View, width: nat, depth: nat)
    requires Ok(v) && depth >= 1 && 1 <= width <= v.maxWidth && Full(v)
    ensures var v1 := Grown(v, Win(v.wins[v.Tail()].max + depth, width, depth)); Shaped(v1) && Complete(v1)
  {
    var w := Win(v.wins[v.Tail()].max + depth, width, depth);
    var v1 := Grown(v, w);
    LateralGrows(v.wins, w, v.maxWidth);
    assert Shaped(v1);
    forall k, i | 0 < k < v1.Tail() && 0 <= i < v1.maxWidth ensures Filled(v1, k, i) {
      if k < v.Tail() { assert Filled(v, k, i); }
    }
  }

  /** A new window of any width and depth may follow a full one. */
  lemma GrowKeeps(v: View, width: nat, depth: nat)
    requires Ok(v) && depth >= 1 && 1 <= width <= v.maxWidth && Full(v)
    ensures Ok(Grown(v, Win(v.wins[v.Tail()].max + depth, width, depth)))
  {
    var w := Win(v.wins[v.Tail()].max + depth, width, depth);
    var v1 := Grown(v, w);
    GrowShaped(v, width, depth);
    forall a | 0 <= a < |v1.order| ensures Placed(v1, v1.order[a]) { assert Placed(v, v.order[a]); }
    forall i | 0 <= i < v1.maxWidth ensures Chain(v1.wins, i, v1.get[i], v1.put[i], v1.sub[i]) {
      ChainGrow(v.wins, w, i, v.get[i], v.put[i], v.sub[i]);
    }
  }

  /** The get side may move on once its window is drained and is not the tail. */
  lemma AdvanceKeeps(v: View)
    requires Ok(v) && v.head + 1 < v.Tail() && Drained(v)
    ensures Ok(Advanced(v))
  {
    var v1 := Advanced(v);
    assert Above(v.wins, v.head + 1, v.head + 2);
    assert Shaped(v1);
    forall k, i | 0 < k < v1.Tail() && 0 <= i < v1.maxWidth ensures Filled(v1, k, i) { assert Filled(v, k, i); }
    forall i | 0 <= i < v1.maxWidth ensures Chain(v1.wins, i, v1.get[i], v1.put[i], v1.sub[i]) {
      assert Chain(v.wins, i, v.get[i], v.put[i], v.sub[i]);
    }
    forall a | 0 <= a < |v1.order| ensures Placed(v1, v1.order[a]) {
      assert Placed(v, v.order[a]);
      WindowDrained(v, v.order[a]);
    }
  }

  /** x goes to the top of its sub-queue in the tail window, at the gap-closed row. */
  ghost predicate Appendable(v: View, x: Item) requires Shaped(v) {
    && x.win == v.Tail() && x.q < v.wins[x.win].width && v.put[x.q] < v.wins[x.win].max
    && x.row == NextRow(v.wins[x.win], v.put[x.q])
  }

  lemma EnqueueShaped(v: View, x: Item)
    requires Ok(v) && Appendable(v, x)
    ensures Shaped(Enqueued(v, x)) && Complete(Enqueued(v, x)) && Follows(v.wins, x.q, v.put[x.q], x)
  {
    var v1 := Enqueued(v, x);
    forall k | 0 < k < x.win ensures NoRoom(v.wins, x.q, v.put[x.q], k) { assert Filled(v, k, x.q); }
    assert Shaped(v1);
    forall k, i | 0 < k < v1.Tail() && 0 <= i < v1.maxWidth ensures Filled(v1, k, i) { assert Filled(v, k, i); }
  }

  lemma EnqueueListed(v: View, x: Item)
    requires Ok(v) && Appendable(v, x) && Shaped(Enqueued(v, x))
    ensures Listed(Enqueued(v, x)) && Ordered(Enqueued(v, x).order) && Filed(Enqueued(v, x))
  {
    var v1 := Enqueued(v, x);
    forall a | 0 <= a < |v1.order| ensures Placed(v1, v1.order[a]) {
      if a < |v.order| { assert Placed(v, v.order[a]); }
    }
    forall a, b | 0 <= a < b < |v1.order| ensures Before(v1.order[a], v1.order[b]) {
      assert Placed(v, v.order[a]);
      if b < |v.order| { assert Before(v.order[a], v.order[b]); }
    }
    assert forall y :: y in v.order ==> y in v1.order;
    assert x in v1.order;
  }

  lemma EnqueueKeeps(v: View, x: Item)
    requires Ok(v) && Appendable(v, x)
    ensures Ok(Enqueued(v, x))
  {
    var v1 := Enqueued(v, x);
    EnqueueShaped(v, x);
    EnqueueListed(v, x);
    forall i | 0 <= i < v1.maxWidth ensures Chain(v1.wins, i, v1.get[i], v1.put[i], v1.sub[i]) {
      assert Chain(v.wins, i, v.get[i], v.put[i], v.sub[i]);
      if i == x.q { ChainAppend(v.wins, i, v.get[i], v.put[i], v.sub[i], x); }
    }
  }

  /** The front item of a sub-queue that has one in the get window, and its place in the list. */
  ghost predicate AtFront(v: View, i: nat, k: nat) requires Shaped(v) {
    i < v.maxWidth && v.sub[i] != [] && k < |v.order| && v.order[k] == v.sub[i][0] && v.sub[i][0].win == v.head + 1
  }

  lemma DequeueShaped(v: View, i: nat, k: nat)
    requires Ok(v) && AtFront(v, i, k)
    ensures Shaped(Dequeued(v, i, k)) && Complete(Dequeued(v, i, k))
  {
    var s := v.sub[i];
    assert Chain(v.wins, i, v.get[i], v.put[i], s) && Link(v.wins, i, v.get[i], s, 0);
    if |s| > 1 { assert s[0].row < s[|s| - 1].row; }
    var v1 := Dequeued(v, i, k);
    assert Shaped(v1);
    forall l, j | 0 < l < v1.Tail() && 0 <= j < v1.maxWidth ensures Filled(v1, l, j) { assert Filled(v, l, j); }
  }

  lemma DequeuePlaced(v: View, i: nat, k: nat, y: Item)
    requires Ok(v) && AtFront(v, i, k) && Shaped(Dequeued(v, i, k)) && Placed(v, y) && y != v.order[k]
    ensures Placed(Dequeued(v, i, k), y)
  {
    if y.q == i {
      assert Chain(v.wins, i, v.get[i], v.put[i], v.sub[i]);
      var m :| 0 <= m < |v.sub[i]| && v.sub[i][m] == y;
      assert m > 0 && v.sub[i][1..][m - 1] == y;
    }
  }

  lemma DequeueListed(v: View, i: nat, k: nat)
    requires Ok(v) && AtFront(v, i, k) && Shaped(Dequeued(v, i, k))
    ensures Listed(Dequeued(v, i, k)) && Ordered(Dequeued(v, i, k).order)
  {
    var v1 := Dequeued(v, i, k);
    forall a | 0 <= a < |v1.order| ensures Placed(v1, v1.order[a]) {
      var b := if a < k then a else a + 1;
      assert Placed(v, v.order[b]) && Placed(v, v.order[k]);
      assert if b < k then Before(v.order[b], v.order[k]) else Before(v.order[k], v.order[b]);
      DequeuePlaced(v, i, k, v.order[b]);
    }
    forall a, b | 0 <= a < b < |v1.order| ensures Before(v1.order[a], v1.order[b]) {
      assert Before(v.order[if a < k then a else a + 1], v.order[if b < k then b else b + 1]);
    }
  }

  lemma DequeueFiled(v: View, i: nat, k: nat)
    requires Ok(v) && AtFront(v, i, k) && Shaped(Dequeued(v, i, k))
    ensures Filed(Dequeued(v, i, k))
  {
    var v1 := Dequeued(v, i, k);
    forall j, m | 0 <= j < v1.maxWidth && 0 <= m < |v1.sub[j]| ensures v1.sub[j][m] in v1.order {
      var n := if j == i then m + 1 else m;
      var y := v.sub[j][n];
      assert v1.sub[j][m] == y && y in v.order;
      assert Chain(v.wins, j, v.get[j], v.put[j], v.sub[j]) && Chain(v.wins, i, v.get[i], v.put[i], v.sub[i]);
      assert Link(v.wins, j, v.get[j], v.sub[j], n) && Link(v.wins, i, v.get[i], v.sub[i], 0);
      InWithout(v.order, k, y);
    }
  }

  lemma DequeueKeeps(v: View, i: nat, k: nat)
    requires Ok(v) && AtFront(v, i, k)
    ensures Ok(Dequeued(v, i, k))
  {
    var v1 := Dequeued(v, i, k);
    DequeueShaped(v, i, k);
    DequeueListed(v, i, k);
    DequeueFiled(v, i, k);
    forall j | 0 <= j < v1.maxWidth ensures Chain(v1.wins, j, v1.get[j], v1.put[j], v1.sub[j]) {
      assert Chain(v.wins, j, v.get[j], v.put[j], v.sub[j]);
      if j == i { ChainDrop(v.wins, j, v.get[j], v.put[j], v.sub[j]); }
    }
  }

  /** The counting argument: whatever is older than the front item of a sub-queue and still queued
      was put in that item's own window, in other sub-queues. */
  lemma Rank(v: View, i: nat, k: nat)
    requires Ok(v) && AtFront(v, i, k)
    ensures k <= v.wins[v.order[k].win].depth * (v.wins[v.order[k].win].width - 1)
  {
    var x := v.order[k];
    var w := v.wins[x.win];
    assert Placed(v, x) && Chain(v.wins, i, v.get[i], v.put[i], v.sub[i]) && Link(v.wins, i, v.get[i], v.sub[i], 0);
    var older := v.order[..k];
    forall a | 0 <= a < |older|
      ensures older[a].q < w.width && older[a].q != x.q && Bottom(w) < older[a].row <= Bottom(w) + w.depth
    {
      assert Placed(v, v.order[a]) && Before(v.order[a], x);
    }
    forall a, b | 0 <= a < b < |older| ensures older[a].q != older[b].q || older[a].row != older[b].row {
      assert Before(v.order[a], v.order[b]);
    }
    AreaBound(older, w.width, x.q, Bottom(w), w.depth);
  }

  /** Taking the front item of a sub-queue that has one in the get window. */
  lemma FrontTaken(v: View, i: nat) returns (k: nat)
    requires Ok(v) && i < v.wins[v.head + 1].width && Takeable(v, i)
    ensures AtFront(v, i, k) && v.order[k].q == i && v.sub[i][0].row == NextRow(v.wins[v.head + 1], v.get[i])
    ensures k <= v.wins[v.head + 1].depth * (v.wins[v.head + 1].width - 1)
    ensures Ok(Dequeued(v, i, k))
  {
    assert Chain(v.wins, i, v.get[i], v.put[i], v.sub[i]);
    ShortcutExact(v, i);
    assert Link(v.wins, i, v.get[i], v.sub[i], 0);
    assert v.sub[i][0] in v.order;
    k :| 0 <= k < |v.order| && v.order[k] == v.sub[i][0];
    Rank(v, i, k);
    DequeueKeeps(v, i, k);
  }

  /** At the tail with nothing to take, the whole queue is empty; and an empty queue offers nothing. */
  lemma EmptyExact(v: View)
    requires Ok(v)
    ensures v.order == [] ==> Drained(v) && forall i :: 0 <= i < v.maxWidth ==> v.sub[i] == []
    ensures v.head + 1 == v.Tail() && Drained(v) ==> v.order == []
  {
    forall i | 0 <= i < v.maxWidth && v.sub[i] != [] ensures v.order != [] {
      assert v.sub[i][0] in v.order;
    }
    if v.order == [] {
      forall i | 0 <= i < v.wins[v.head + 1].width ensures !Takeable(v, i) { ShortcutExact(v, i); }
    } else if v.head + 1 == v.Tail() && Drained(v) {
      assert Placed(v, v.order[0]);
      WindowDrained(v, v.order[0]);
    }
  }

  lemma FoundExact(v: View, i: nat, found: bool)
    requires Ok(v) && i < v.wins[v.head + 1].width
    requires if found then Takeable(v, i) else v.head + 1 == v.Tail() && Drained(v)
    ensures found <==> v.order != []
    ensures !found ==> v.sub[i] == []
  {
    EmptyExact(v);
    ShortcutExact(v, i);
  }

  lemma InitialOk(v: View)
    requires exists w: nat, d: nat :: v.wins == [Win(0, w, 0), Win(d, w, d)] && 1 <= w <= v.maxWidth && d >= 1
    requires v.head == 0 && v.order == [] && |v.put| == |v.get| == |v.sub| == v.maxWidth
    requires forall i :: 0 <= i < v.maxWidth ==> v.put[i] == 0 && v.get[i] == 0 && v.sub[i] == []
    ensures Ok(v)
  {
    assert Shaped(v);
  }

  // ---------------------------------------------------------------------------------------------
  // The queue and its operations

  /** thread_put_index, thread_get_index, and the windows a thread remembers, by position. */
  class Locals {
    var putIndex: nat
    var getIndex: nat
    var putWin: nat
    var getWin: nat
    constructor ()
      ensures putIndex == 0 && getIndex == 0 && putWin == 1 && getWin == 1
    {
      putIndex, getIndex, putWin, getWin := 0, 0, 1, 1;
    }
  }

  class Queue {
    const maxWidth: nat
    const randomHops: nat
    var wins: seq<Win>            // the lateral, its tail last
    var head: nat                 // position of the lateral's head, one before the get window
    var width: nat                // for windows to come
    var depth: nat
    const put: array<nat>
    const get: array<nat>
    const sub: array<seq<Item>>
    ghost var order: seq<Item>

    ghost function Shown(): View reads this, put, get, sub {
      View(maxWidth, wins, head, put[..], get[..], sub[..], order)
    }

    ghost predicate Valid()
      reads this, put, get, sub
    {
      put != get && Ok(Shown())
    }

    /** The width and depth set make a window; they matter once the tail window is full. */
    ghost predicate Settled() reads this {
      depth >= 1 && 1 <= width <= maxWidth
    }

    /** A thread remembers windows that were once current, and an index inside its get window. */
    ghost predicate Knows(t: Locals)
      reads this, t
    {
      0 < t.putWin < |wins| && 0 < t.getWin <= head + 1 < |wins| && t.getIndex < wins[t.getWin].width
    }

    /** create_queue: a dummy window below row 1, and the first window as both tail and get window. */
    constructor (numThreads: nat, width0: nat, depth0: nat, maxWidth0: nat, kMode: nat, requested: nat)
      requires kMode <= 3 && (kMode == 0 ==> width0 >= 1) && (kMode == 2 ==> depth0 >= 1)
      ensures depth >= 1 <==> Usable(numThreads, width0, depth0, kMode, requested)
      ensures depth >= 1 ==> Valid() && Settled()
      ensures fresh(put) && fresh(get) && fresh(sub) && order == []
      ensures wins == [Win(0, width, 0), Win(depth, width, depth)] && head == 0
      ensures exists bound: nat ::
                && Derived(1, numThreads, width0, depth0, kMode, requested, width, depth, bound)
                && depth * (width - 1) <= bound
      ensures maxWidth == (if maxWidth0 < width then width else maxWidth0) && randomHops == RANDOM_HOPS
    {
      var w, d, b := Parameters(1, numThreads, width0, depth0, kMode, requested);
      var m := if maxWidth0 < w then w else maxWidth0;
      var empty: seq<Item> := [];
      maxWidth, randomHops := m, RANDOM_HOPS;
      wins, head := [Win(0, w, 0), Win(d, w, d)], 0;
      width, depth := w, d;
      put := new nat[m](_ => 0);
      get := new nat[m](_ => 0);
      sub := new seq<Item>[m](_ => empty);
      order := [];
      new;
      if d >= 1 { InitialOk(Shown()); }
    }

    /** Whatever is set is stored. */
    method UpdateWidth(width: nat) returns (previous: nat)
      requires Valid()
      modifies this`width
      ensures Valid() && previous == old(this.width) && this.width == width
    {
      previous, this.width := this.width, width;
    }

    method UpdateDepth(depth: nat) returns (previous: nat)
      requires Valid()
      modifies this`depth
      ensures Valid() && previous == old(this.depth) && this.depth == depth
    {
      previous, this.depth := this.depth, depth;
    }

    static function Inside(index: nat, width: nat): nat { if index >= width then 0 else index }

    /** The put side moves on exactly when every sub-queue of the tail window is full, at most once,
        to a window of the width and depth set at that time. */
    ghost function PutShifted(): seq<Win>
      requires Valid()
      reads this, put, get, sub
    {
      if Full(Shown()) then wins + [Win(wins[|wins| - 1].max + depth, width, depth)] else wins
    }

    /** The put search has ended: the tail window has room at the thread's index. */
    ghost predicate RoomAt(t: Locals) reads this, put, t requires put.Length == maxWidth {
      && t.putWin == |wins| - 1 && 0 <= t.putWin && wins[t.putWin].width <= maxWidth
      && t.putIndex < wins[t.putWin].width && put[t.putIndex] < wins[t.putWin].max
    }

    /** There is room in the tail window at index i. */
    ghost predicate CanPut(i: nat) reads this, put, get, sub {
      Valid() && i < wins[|wins| - 1].width && put[i] < wins[|wins| - 1].max
    }

    /** There is an item of the get window at index i. */
    ghost predicate CanTake(i: nat) reads this, put, get, sub {
      Valid() && i < wins[head + 1].width && Takeable(Shown(), i)
    }

    /** shift_put without interference: the new window goes in and becomes the tail. */
    method ShiftPut(t: Locals)
      requires Valid() && Knows(t) && t.putWin == |wins| - 1 && Full(Shown()) && Settled()
      modifies this`wins, t`putWin, t`putIndex
      ensures Valid() && Knows(t) && t.putWin == |wins| - 1
      ensures wins == old(PutShifted()) && t.putIndex < wins[t.putWin].width && !Full(Shown())
    {
      ghost var v := Shown();
      GrowKeeps(v, width, depth);
      wins := wins + [Win(wins[t.putWin].max + depth, width, depth)];
      t.putWin := |wins| - 1;
      t.putIndex := Inside(t.putIndex, wins[t.putWin].width);
      assert Shown() == Grown(v, wins[t.putWin]);
      assert v.put[0] <= v.wins[v.Tail()].max;
    }

    /** One pass of the put search over the tail window. */
    method PutPass(t: Locals, random0: nat) returns (found: bool, random: nat)
      requires Valid() && Knows(t) && t.putWin == |wins| - 1 && t.putIndex < wins[t.putWin].width
      requires random0 <= randomHops
      modifies t`putIndex
      ensures t.putIndex < wins[t.putWin].width && random <= randomHops
      ensures if found then RoomAt(t) && wins == PutShifted() else Full(Shown())
      ensures old(CanPut(t.putIndex)) ==> found && t.putIndex == old(t.putIndex)
    {
      ghost var stays, i := CanPut(t.putIndex), t.putIndex;
      var hops: nat := 0;
      random := random0;
      var width := wins[t.putWin].width;
      ghost var start: nat := t.putIndex;
      while put[t.putIndex] >= wins[t.putWin].max
        invariant Walk(width, randomHops, start, hops, random, t.putIndex)
        invariant stays ==> t.putIndex == i
        invariant forall j: nat :: j < width && Passed(start, hops, width, j) ==> put[j] >= wins[t.putWin].max
        decreases randomHops - random, width - hops
      {
        if hops == width {
          PassComplete(width, start);
          return false, random;
        }
        t.putIndex, random, hops, start := Hop(width, randomHops, t.putIndex, random, hops, start);
      }
      return true, random;
    }

    method PutSearch(t: Locals)
      requires Valid() && Knows(t) && t.putWin == |wins| - 1 && t.putIndex < wins[t.putWin].width
      requires Full(Shown()) ==> Settled()
      modifies this`wins, t`putWin, t`putIndex
      ensures Valid() && Knows(t) && RoomAt(t)
      ensures wins == old(PutShifted()) && (old(CanPut(t.putIndex)) ==> t.putIndex == old(t.putIndex))
    {
      ghost var next, stays, i := PutShifted(), CanPut(t.putIndex), t.putIndex;
      var found, random: nat := false, 0;
      found, random := PutPass(t, random);
      while !found
        invariant Valid() && Knows(t) && random <= randomHops
        invariant t.putWin == |wins| - 1 && t.putIndex < wins[t.putWin].width
        invariant if found then RoomAt(t) && wins == next else wins == old(wins) && Full(Shown())
        invariant stays ==> found && t.putIndex == i
        decreases !found
      {
        ShiftPut(t);
        found, random := PutPass(t, random);
      }
    }

    method PutWindow(t: Locals, contention: bool)
      requires Valid() && Knows(t) && (Full(Shown()) ==> Settled())
      modifies this`wins, t
      ensures Valid() && Knows(t) && RoomAt(t)
      ensures wins == old(PutShifted())
      ensures !contention && old(CanPut(t.putIndex)) ==> t.putIndex == old(t.putIndex)
      ensures t.getIndex == Shared(t.getWin, t.putWin, t.putIndex, old(t.getIndex))
    {
      SyncPut(t, contention);
      PutSearch(t);
      ShareIndex(t);
    }

    method SyncPut(t: Locals, contention: bool)
      requires Valid() && Knows(t)
      modifies t`putWin, t`putIndex
      ensures Knows(t) && t.putWin == |wins| - 1 && t.putIndex < wins[t.putWin].width
      ensures !contention && old(t.putIndex) < wins[t.putWin].width ==> t.putIndex == old(t.putIndex)
    {
      t.putWin := |wins| - 1;
      if contention || t.putIndex >= wins[t.putWin].width {
        var r: nat :| r < wins[t.putWin].width;
        t.putIndex := r;
      }
    }

    /** A thread takes its index over to the other side when the windows are equally wide. */
    ghost function Shared(from: nat, to: nat, index: nat, kept: nat): nat reads this {
      if from < |wins| && to < |wins| && wins[from].width == wins[to].width then index else kept
    }

    /** The get side continues where the put side found room, when the index fits. */
    method ShareIndex(t: Locals)
      requires Valid() && Knows(t) && t.putIndex < wins[t.putWin].width
      modifies t`getIndex
      ensures Knows(t) && t.getIndex == Shared(t.getWin, t.putWin, t.putIndex, old(t.getIndex))
    {
      if wins[t.getWin].width == wins[t.putWin].width {
        t.getIndex := t.putIndex;
      }
    }

    method Enqueue(t: Locals, val: int)
      requires Valid() && Knows(t) && (Full(Shown()) ==> Settled())
      modifies this`wins, this`order, put, sub, t
      ensures Valid() && Knows(t) && wins == old(PutShifted()) && t.putIndex < wins[|wins| - 1].width
      ensures order == old(order) + [Item(t.putIndex, put[t.putIndex], |wins| - 1, val)]
      // a thread stays where there is room, and takes the index over to the get side
      ensures old(CanPut(t.putIndex)) ==> t.putIndex == old(t.putIndex)
      ensures t.getIndex == Shared(t.getWin, |wins| - 1, t.putIndex, old(t.getIndex))
    {
      PutWindow(t, false);
      var row := RowAbove(put[t.putIndex], wins[t.putWin]);
      Append(Item(t.putIndex, row, t.putWin, val));
    }

    /** The row after count, with the gap closed at the bottom of window w. */
    static method RowAbove(count: nat, w: Win) returns (row: nat)
      requires w.depth <= w.max
      ensures row == NextRow(w, count)
    {
      if count >= w.max - w.depth {
        row := count + 1;
      } else {
        row := w.max - w.depth + 1;
      }
    }

    /** Linking the node and advancing the put descriptor to its row. */
    method Append(x: Item)
      requires Valid() && Appendable(Shown(), x)
      modifies this`order, put, sub
      ensures Valid() && order == old(order) + [x] && put[x.q] == x.row
    {
      ghost var v := Shown();
      EnqueueKeeps(v, x);
      sub[x.q] := sub[x.q] + [x];
      put[x.q] := x.row;
      order := order + [x];
      assert Shown() == Enqueued(v, x);
    }

    /** A thread's index and window on the get side are current. */
    ghost predicate InGetWindow(t: Locals) reads this, t {
      t.getWin == head + 1 < |wins| && t.getIndex < wins[t.getWin].width && t.putWin == |wins| - 1
    }

    method SyncGet(t: Locals, contention: bool)
      requires Valid() && Knows(t) && t.putWin == |wins| - 1
      modifies t`getWin, t`getIndex
      ensures Knows(t) && InGetWindow(t)
      ensures !contention && old(t.getIndex) < wins[t.getWin].width ==> t.getIndex == old(t.getIndex)
    {
      if contention {
        var r: nat :| r < wins[t.getWin].width;
        t.getIndex := r;
      }
      if head + 1 != t.getWin {
        t.getWin := head + 1;
        t.getIndex := Inside(t.getIndex, wins[t.getWin].width);
      }
    }

    /** The put count the get search goes by. */
    method ReadPut(t: Locals) returns (count: nat)
      requires Valid() && InGetWindow(t)
      ensures count == SeenPut(Shown(), t.getIndex)
    {
      if wins[t.putWin].max > wins[t.getWin].max {
        count := wins[t.putWin].max - wins[t.putWin].depth;
      } else {
        count := put[t.getIndex];
      }
    }

    method GetPass(t: Locals, random0: nat) returns (found: bool, random: nat)
      requires Valid() && InGetWindow(t) && random0 <= randomHops
      modifies t`getIndex
      ensures InGetWindow(t) && random <= randomHops
      ensures found ==> Takeable(Shown(), t.getIndex)
      ensures !found ==> Drained(Shown())
      ensures old(CanTake(t.getIndex)) ==> found && t.getIndex == old(t.getIndex)
    {
      ghost var v, stays, i := Shown(), CanTake(t.getIndex), t.getIndex;
      var hops: nat := 0;
      random := random0;
      var width := wins[t.getWin].width;
      ghost var start: nat := t.getIndex;
      var count := ReadPut(t);
      while !(get[t.getIndex] < wins[t.getWin].max && get[t.getIndex] < count)
        invariant Shown() == v && InGetWindow(t) && Walk(width, randomHops, start, hops, random, t.getIndex)
        invariant count == SeenPut(v, t.getIndex)
        invariant stays ==> t.getIndex == i
        invariant forall j: nat :: j < width && Passed(start, hops, width, j) ==> !Takeable(v, j)
        decreases randomHops - random, width - hops
      {
        if hops == width {
          PassComplete(width, start);
          return false, random;
        }
        t.getIndex, random, hops, start := Hop(width, randomHops, t.getIndex, random, hops, start);
        count := ReadPut(t);
      }
      return true, random;
    }

    /** shift_get without interference. */
    method ShiftGet(t: Locals)
      requires Valid() && InGetWindow(t) && Drained(Shown()) && t.getWin != |wins| - 1
      modifies this`head, t`getWin, t`getIndex
      ensures Valid() && InGetWindow(t) && head == old(head) + 1
      ensures head + 1 < |wins| - 1 ==> !Drained(Shown())
    {
      ghost var v := Shown();
      AdvanceKeeps(v);
      head := head + 1;
      t.getWin := head + 1;
      t.getIndex := Inside(t.getIndex, wins[t.getWin].width);
      assert Shown() == Advanced(v);
      if head + 1 < |wins| - 1 { FreshWindow(Shown()); }
    }

    /** Where the get side goes: on exactly when its window is drained and is not the tail. */
    ghost function GetShifted(): nat
      requires Valid()
      reads this, put, get, sub
    {
      if Drained(Shown()) && head + 1 < |wins| - 1 then head + 1 else head
    }

    /** The window moves at most once, and nothing is found exactly when the whole queue is empty. */
    method GetSearch(t: Locals) returns (found: bool)
      requires Valid() && InGetWindow(t)
      modifies this`head, t`getWin, t`getIndex
      ensures Valid() && InGetWindow(t) && head == old(GetShifted())
      ensures if found then Takeable(Shown(), t.getIndex) else t.getWin == |wins| - 1 && Drained(Shown())
      ensures old(CanTake(t.getIndex)) ==> found && t.getIndex == old(t.getIndex)
    {
      ghost var stays, i := CanTake(t.getIndex), t.getIndex;
      var random: nat := 0;
      found, random := GetPass(t, random);
      while !found && t.getWin != |wins| - 1
        invariant Valid() && InGetWindow(t) && random <= randomHops
        invariant if found then Takeable(Shown(), t.getIndex) else Drained(Shown())
        invariant stays ==> found && t.getIndex == i
        invariant if found || t.getWin == |wins| - 1 then head == old(GetShifted()) else head == old(head)
        decreases |wins| - head
      {
        ShiftGet(t);
        found, random := GetPass(t, random);
      }
    }

    method GetWindow(t: Locals, contention: bool) returns (found: bool)
      requires Valid() && Knows(t) && t.putWin == |wins| - 1
      modifies this`head, t
      ensures Valid() && Knows(t) && InGetWindow(t) && head == old(GetShifted())
      ensures found ==> Takeable(Shown(), t.getIndex)
      ensures found <==> order != []
      ensures !found ==> sub[t.getIndex] == [] && t.getWin == |wins| - 1
      ensures !contention && old(CanTake(t.getIndex)) ==> found && t.getIndex == old(t.getIndex)
      ensures t.putIndex == Shared(t.getWin, t.putWin, t.getIndex, old(t.putIndex))
    {
      SyncGet(t, contention);
      found := FindOrEmpty(t);
      ShareIndexBack(t);
    }

    /** The search finds something exactly when the queue is not empty. */
    method FindOrEmpty(t: Locals) returns (found: bool)
      requires Valid() && InGetWindow(t)
      modifies this`head, t`getWin, t`getIndex
      ensures Valid() && InGetWindow(t) && head == old(GetShifted())
      ensures if found then Takeable(Shown(), t.getIndex) else t.getWin == |wins| - 1 && sub[t.getIndex] == []
      ensures found <==> order != []
      ensures old(CanTake(t.getIndex)) ==> found && t.getIndex == old(t.getIndex)
    {
      found := GetSearch(t);
      FoundExact(Shown(), t.getIndex, found);
    }

    method ShareIndexBack(t: Locals)
      requires Valid() && InGetWindow(t)
      modifies t`putIndex
      ensures Knows(t) && InGetWindow(t) && t.putIndex == Shared(t.getWin, t.putWin, t.getIndex, old(t.putIndex))
    {
      if wins[t.getWin].width == wins[t.putWin].width {
        t.putIndex := t.getIndex;
      }
    }

    /** The promise of the framework under any changes of width and depth: at most
        depth * (width - 1) older items are overtaken, for the width and depth of the window the item
        was enqueued in; the get count becomes that item's own row; empty is exact. */
    method Dequeue(t: Locals) returns (r: Option<int>, ghost k: nat)
      requires Valid() && Knows(t)
      modifies this`head, this`order, get, sub, t
      ensures Valid() && Knows(t)
      ensures r.None? <==> old(order) == []
      ensures r.None? ==> order == []
      ensures r.Some? ==> Takes(old(order), k, order) && r.value == old(order)[k].val
      ensures r.Some? ==> Overtakes(old(order)[k], k) && get[old(order)[k].q] == old(order)[k].row
      ensures head == old(GetShifted())
      // a thread takes from where it is if there is something to take, and takes the index over to the put side
      ensures r.Some? ==> old(order)[k].q == t.getIndex
      ensures old(CanTake(t.getIndex)) ==> t.getIndex == old(t.getIndex)
      ensures t.putIndex == Shared(head + 1, |wins| - 1, t.getIndex, old(t.putIndex))
    {
      var found := Find(t);
      k := 0;
      if wins[t.putWin].max <= wins[t.getWin].max && sub[t.getIndex] == [] {
        return None, 0;
      }
      var val;
      val, k := TakeFront(t.getIndex);
      r := Some(val);
    }

    /** The tail is loaded, and the get window searched. */
    method Find(t: Locals) returns (found: bool)
      requires Valid() && Knows(t)
      modifies this`head, t
      ensures Valid() && Knows(t) && InGetWindow(t) && head == old(GetShifted())
      ensures found ==> Takeable(Shown(), t.getIndex)
      ensures found <==> order != []
      ensures found <==> !(wins[t.putWin].max <= wins[t.getWin].max && sub[t.getIndex] == [])
      ensures old(CanTake(t.getIndex)) ==> t.getIndex == old(t.getIndex)
      ensures t.putIndex == Shared(t.getWin, |wins| - 1, t.getIndex, old(t.putIndex))
    {
      t.putWin := |wins| - 1;
      found := GetWindow(t, false);
    }

    /** k is within the relaxation of the window the item was enqueued in. */
    ghost predicate Overtakes(x: Item, k: nat) reads this {
      x.win < |wins| && x.q < maxWidth && k <= wins[x.win].depth * (wins[x.win].width - 1)
    }

    /** Swinging the get descriptor to the next node, whose row is worked out by closing the gap at
        the bottom of the get window. */
    method TakeFront(i: nat) returns (val: int, ghost k: nat)
      requires Valid() && i < wins[head + 1].width && Takeable(Shown(), i)
      modifies this`order, get, sub
      ensures Valid() && Takes(old(order), k, order) && val == old(order)[k].val
      ensures var x := old(order)[k]; x.q == i && Overtakes(x, k) && get[i] == x.row
    {
      ghost var v := Shown();
      k := FrontTaken(v, i);
      var row := get[i] + 1;
      var min := wins[head + 1].max - wins[head + 1].depth + 1;
      if row < min {
        row := min;
      }
      val := sub[i][0].val;
      sub[i] := sub[i][1..];
      get[i] := row;
      order := Without(order, k);
      assert Shown() == Dequeued(v, i, k);
    }
  }
}
