/** The static 2Dc stack at operation level: one window moves up when every sub-stack is full and
    down when every sub-stack is drained, by any fixed shift between 1 and the depth. */
module Stack2Dc {
  import opened Relaxation
  import opened Search

  /** The items of each sub-stack from the bottom up, the window, and the list of all items in the
      order they were pushed. */
  datatype View = View(width: nat, depth: nat, shift: nat, sub: seq<seq<Item>>, max: nat, order: seq<Item>)

  /** The max of a window: the first is at the depth, and all lie whole shifts above it. */
  ghost predicate IsWindow(v: View, max: nat) { v.depth <= max && Multiple(max - v.depth, v.shift) }

  /** Every count stays within one depth below the window's max. */
  ghost predicate Shaped(v: View) {
    && v.depth >= 1 && v.shift >= 1 && |v.sub| == v.width && IsWindow(v, v.max)
    && (forall i :: 0 <= i < v.width ==> |v.sub[i]| <= v.max <= |v.sub[i]| + v.depth)
  }

  /** Item x is in its sub-stack, and was inside the window at win when it was pushed. */
  ghost predicate Placed(v: View, x: Item)
    requires Shaped(v)
  {
    && x.q < v.width && 1 <= x.row <= |v.sub[x.q]| && v.sub[x.q][x.row - 1] == x
    && IsWindow(v, x.win) && x.row <= x.win < x.row + v.depth
  }

  /** y was pushed after x and x has not been popped since: y's window reached up to x. */
  ghost predicate Before(x: Item, y: Item) {
    x.row <= y.win && (x.q == y.q ==> x.row < y.row)
  }

  ghost predicate Listed(v: View) requires Shaped(v) {
    forall a :: 0 <= a < |v.order| ==> Placed(v, v.order[a])
  }

  ghost predicate Ordered(v: View) {
    forall a, b :: 0 <= a < b < |v.order| ==> Before(v.order[a], v.order[b])
  }

  ghost predicate Filed(v: View, i: nat) requires Shaped(v) && i < v.width {
    forall k :: 0 <= k < |v.sub[i]| ==> v.sub[i][k].q == i && v.sub[i][k].row == k + 1 && v.sub[i][k] in v.order
  }

  ghost predicate Ok(v: View) {
    Shaped(v) && Listed(v) && Ordered(v) && forall i :: 0 <= i < v.width ==> Filed(v, i)
  }

  function Pushed(v: View, x: Item): View
    requires Shaped(v) && x.q < v.width
  {
    v.(sub := v.sub[x.q := v.sub[x.q] + [x]], order := v.order + [x])
  }

  function Popped(v: View, i: nat, k: nat): View
    requires Shaped(v) && i < v.width && v.sub[i] != [] && k < |v.order|
  {
    v.(sub := v.sub[i := v.sub[i][..|v.sub[i]| - 1]], order := Without(v.order, k))
  }

  /** Moving the window moves no item. */
  lemma WindowMoves(v: View, max: nat)
    requires Ok(v) && Shaped(v.(max := max))
    ensures Ok(v.(max := max))
  {
    var v1 := v.(max := max);
    forall a | 0 <= a < |v1.order| ensures Placed(v1, v1.order[a]) { assert Placed(v, v.order[a]); }
    forall a, b | 0 <= a < b < |v1.order| ensures Before(v1.order[a], v1.order[b]) {
      assert Before(v.order[a], v.order[b]);
    }
    forall i | 0 <= i < v1.width ensures Filed(v1, i) { assert Filed(v, i); }
  }

  lemma PushKeeps(v: View, x: Item)
    requires Ok(v) && x.q < v.width && |v.sub[x.q]| < v.max && x.row == |v.sub[x.q]| + 1 && x.win == v.max
    ensures Ok(Pushed(v, x))
  {
    var v1 := Pushed(v, x);
    forall a | 0 <= a < |v1.order| ensures Placed(v1, v1.order[a]) {
      if a < |v.order| { assert Placed(v, v.order[a]); }
    }
    forall a, b | 0 <= a < b < |v1.order| ensures Before(v1.order[a], v1.order[b]) {
      assert Placed(v, v.order[a]);
      if b < |v.order| { assert Before(v.order[a], v.order[b]); }
    }
    forall i | 0 <= i < v.width ensures Filed(v1, i) {
      assert Filed(v, i);
      assert forall y :: y in v.order ==> y in v1.order;
      assert x in v1.order;
    }
  }

  /** Rows of another sub-stack in which items younger than a poppable one can lie. */
  function Reach(depth: nat, shift: nat): nat requires depth >= 1 && shift >= 1 {
    depth + Times((depth - 1) / shift, shift)
  }

  /** How many younger items a pop may leave behind. */
  function LeftBehind(width: nat, depth: nat, shift: nat): nat requires width >= 1 && depth >= 1 && shift >= 1 {
    Reach(depth, shift) * (width - 1)
  }

  /** A window less than a depth below another is below it by no more than the shifts that fit. */
  lemma WindowsNear(v: View, low: nat, max: nat)
    requires v.depth >= 1 && v.shift >= 1 && IsWindow(v, low) && IsWindow(v, max) && max < low + v.depth
    ensures max <= low + Times((v.depth - 1) / v.shift, v.shift)
  {
    var m: nat :| low - v.depth == Times(m, v.shift);
    var n: nat :| max - v.depth == Times(n, v.shift);
    if n > m {
      assert Times(n, v.shift) == Times(m, v.shift) + Times(n - m, v.shift);
      var q := (v.depth - 1) / v.shift;
      if n - m > q {
        TimesMonotone(q + 1, n - m, v.shift);
        Division(v.depth - 1, v.shift);
      }
      TimesMonotone(n - m, q, v.shift);
    } else {
      TimesMonotone(n, m, v.shift);
    }
  }

  /** The counting argument, from both sides: an item younger than the top of a sub-stack lies in a window
      that reached up to that top, and not above the window that reaches down to it now; these are
      less than a depth apart. */
  lemma Rank(v: View, k: nat)
    requires Ok(v) && k < |v.order|
    requires Placed(v, v.order[k]) ==> v.order[k].row == |v.sub[v.order[k].q]| && v.max < v.order[k].row + v.depth
    ensures v.width >= 1 && |v.order| - 1 - k <= LeftBehind(v.width, v.depth, v.shift)
  {
    var x := v.order[k];
    assert Placed(v, x);
    var younger, rows := v.order[k + 1..], Reach(v.depth, v.shift);
    var low := if v.max >= rows then v.max - rows else 0;
    forall a | 0 <= a < |younger|
      ensures younger[a].q < v.width && younger[a].q != x.q && low < younger[a].row <= low + rows
    {
      assert Placed(v, v.order[k + 1 + a]) && Before(x, v.order[k + 1 + a]);
      WindowsNear(v, younger[a].win, v.max);
    }
    forall a, b | 0 <= a < b < |younger| ensures younger[a].q != younger[b].q || younger[a].row != younger[b].row {
      assert Before(v.order[k + 1 + a], v.order[k + 1 + b]);
    }
    AreaBound(younger, v.width, x.q, low, rows);
  }

  lemma PopPlaced(v: View, i: nat, k: nat, y: Item)
    requires Ok(v) && i < v.width && v.sub[i] != [] && k < |v.order| && v.order[k] == v.sub[i][|v.sub[i]| - 1]
    requires Shaped(Popped(v, i, k)) && Placed(v, v.order[k])
    requires Placed(v, y) && (y.q == i ==> y.row != v.order[k].row) && v.order[k].q == i && v.order[k].row == |v.sub[i]|
    ensures Placed(Popped(v, i, k), y)
  {
  }

  lemma PopListed(v: View, i: nat, k: nat)
    requires Ok(v) && i < v.width && v.sub[i] != [] && k < |v.order| && v.order[k] == v.sub[i][|v.sub[i]| - 1]
    requires v.max < |v.sub[i]| + v.depth
    ensures Shaped(Popped(v, i, k)) && Listed(Popped(v, i, k))
  {
    var v1 := Popped(v, i, k);
    assert Filed(v, i) && v.order[k].q == i && v.order[k].row == |v.sub[i]|;
    assert Shaped(v1);
    forall a | 0 <= a < |v1.order| ensures Placed(v1, v1.order[a]) {
      var b := if a < k then a else a + 1;
      assert v1.order[a] == v.order[b];
      assert if b < k then Before(v.order[b], v.order[k]) else Before(v.order[k], v.order[b]);
      PopPlaced(v, i, k, v.order[b]);
    }
  }

  lemma PopFiled(v: View, i: nat, k: nat, j: nat)
    requires Ok(v) && i < v.width && v.sub[i] != [] && k < |v.order| && v.order[k] == v.sub[i][|v.sub[i]| - 1]
    requires j < v.width
    requires Shaped(Popped(v, i, k))
    ensures Filed(Popped(v, i, k), j)
  {
    var v1 := Popped(v, i, k);
    assert Filed(v, i) && Filed(v, j);
    forall m | 0 <= m < |v1.sub[j]| ensures v1.sub[j][m] in v1.order {
      assert v.sub[j][m] in v.order && v.sub[j][m] != v.order[k];
      InWithout(v.order, k, v.sub[j][m]);
    }
  }

  /** Taking the top of a sub-stack inside the window. */
  lemma TopTaken(v: View, i: nat) returns (k: nat)
    requires Ok(v) && i < v.width && v.max < |v.sub[i]| + v.depth
    ensures v.sub[i] != [] && k < |v.order| && v.order[k] == v.sub[i][|v.sub[i]| - 1]
    ensures |v.order| - 1 - k <= LeftBehind(v.width, v.depth, v.shift)
    ensures Ok(Popped(v, i, k))
  {
    var top := v.sub[i][|v.sub[i]| - 1];
    assert Filed(v, i) && top in v.order;
    k :| 0 <= k < |v.order| && v.order[k] == top;
    Rank(v, k);
    PopListed(v, i, k);
    var v1 := Popped(v, i, k);
    forall a, b | 0 <= a < b < |v1.order| ensures Before(v1.order[a], v1.order[b]) {
      assert Before(v.order[if a < k then a else a + 1], v.order[if b < k then b else b + 1]);
    }
    forall j | 0 <= j < v.width ensures Filed(v1, j) {
      PopFiled(v, i, k, j);
    }
  }

  lemma EmptyOrder(v: View)
    requires Ok(v)
    ensures v.order == [] <==> forall i :: 0 <= i < v.width ==> v.sub[i] == []
  {
    if v.order != [] {
      assert Placed(v, v.order[0]);
    }
    forall i | 0 <= i < v.width && v.sub[i] != [] ensures v.order != [] {
      assert Filed(v, i) && v.sub[i][0] in v.order;
    }
  }

  /** thread_Window and thread_index. */
  class Locals {
    var max: nat
    var version: nat
    var index: nat
    constructor ()
      ensures max == 0 && version == 0 && index == 0
    {
      max, version, index := 0, 0, 0;
    }
  }

  class Stack {
    const width: nat
    const depth: nat
    const shift: nat
    const randomHops: nat
    const bound: nat
    const sub: array<seq<Item>>   // the items of each sub-stack, bottom first; its length is the count
    var max: nat                  // global_Window
    var version: nat
    ghost var order: seq<Item>    // all items in the stack, in the order they were pushed

    ghost function Shown(): View reads this, sub {
      View(width, depth, shift, sub[..], max, order)
    }

    ghost predicate Valid()
      reads this, sub
    {
      && width >= 1 && 1 <= shift <= depth && version >= 1
      && WithinBound(2, width, depth, bound)
      && Ok(Shown())
    }

    /** A thread that remembers the current version remembers the current window. */
    ghost predicate Synced(t: Locals) reads this, t {
      t.index < width && t.version <= version && (t.version == version ==> t.max == max)
    }

    constructor (numThreads: nat, width: nat, depth: nat, kMode: nat, requested: nat)
      requires kMode <= 3 && (kMode == 0 ==> width >= 1) && (kMode == 2 ==> depth >= 1)
      ensures this.depth >= 1 <==> Usable(numThreads, width, depth, kMode, requested)
      ensures this.depth >= 1 ==> Valid()
      ensures fresh(sub) && order == [] && max == this.depth && version == 1
      ensures shift == if this.depth / 2 > 1 then this.depth / 2 else 1
      ensures Derived(2, numThreads, width, depth, kMode, requested, this.width, this.depth, bound)
      ensures randomHops == RANDOM_HOPS
    {
      var width', depth', bound' := Parameters(2, numThreads, width, depth, kMode, requested);
      this.width, this.depth, bound := width', depth', bound';
      shift := if depth' / 2 > 1 then depth' / 2 else 1;
      randomHops := RANDOM_HOPS;
      max, version, order := depth', 1, [];
      var empty: seq<Item> := [];
      sub := new seq<Item>[width'](_ => empty);
      MultipleZero(if depth' / 2 > 1 then depth' / 2 else 1);
    }

    /** The optimized variant, which shifts by half the depth rounded up. */
    constructor Optimized(numThreads: nat, width: nat, depth: nat, kMode: nat, requested: nat)
      requires kMode <= 3 && (kMode == 0 ==> width >= 1) && (kMode == 2 ==> depth >= 1)
      ensures this.depth >= 1 <==> Usable(numThreads, width, depth, kMode, requested)
      ensures this.depth >= 1 ==> Valid()
      ensures fresh(sub) && order == [] && max == this.depth && version == 1 && shift == (this.depth + 1) / 2
      ensures Derived(2, numThreads, width, depth, kMode, requested, this.width, this.depth, bound)
      ensures randomHops == RANDOM_HOPS
    {
      var width', depth', bound' := Parameters(2, numThreads, width, depth, kMode, requested);
      this.width, this.depth, bound := width', depth', bound';
      shift := (depth' + 1) / 2;
      randomHops := RANDOM_HOPS;
      max, version, order := depth', 1, [];
      var empty: seq<Item> := [];
      sub := new seq<Item>[width'](_ => empty);
      MultipleZero((depth' + 1) / 2);
    }

    /** Any shift from 1 to the depth. */
    constructor WithShift(width: nat, depth: nat, shift: nat)
      requires width >= 1 && 1 <= shift <= depth
      ensures Valid() && fresh(sub) && order == [] && max == depth && version == 1
      ensures this.width == width && this.depth == depth && this.shift == shift
    {
      var width', depth', bound' := Parameters(2, 0, width, depth, 0, 0);
      this.width, this.depth, this.shift, bound := width', depth', shift, bound';
      randomHops := RANDOM_HOPS;
      max, version, order := depth, 1, [];
      var empty: seq<Item> := [];
      sub := new seq<Item>[width](_ => empty);
      MultipleZero(shift);
    }

    ghost predicate Full() reads this, sub requires Valid() {
      forall i :: 0 <= i < width ==> |sub[i]| == max
    }

    ghost predicate Drained() reads this, sub requires Valid() {
      forall i :: 0 <= i < width ==> |sub[i]| + depth == max
    }

    ghost predicate Empty() reads this, sub requires Valid() {
      forall i :: 0 <= i < width ==> sub[i] == []
    }

    /** read_window, when the version has moved on. */
    method Sync(t: Locals, contention: bool)
      requires Valid() && Synced(t)
      modifies t
      ensures Synced(t) && t.version == version && (!contention ==> t.index == old(t.index))
    {
      if t.version != version {
        t.max, t.version := max, version;
      }
      if contention {
        var r: nat :| r < width;
        t.index := r;
      }
    }

    /** Moving the window and its version; every other thread's version is out of date after it. */
    method Shift(t: Locals, newMax: nat)
      requires Valid() && Synced(t) && t.version == version
      requires Shaped(Shown().(max := newMax))
      modifies this`max, this`version, t`max, t`version
      ensures Valid() && Synced(t) && t.version == version == old(version) + 1 && max == newMax
    {
      ghost var v := Shown();
      WindowMoves(v, newMax);
      max, version := newMax, t.version + 1;
      t.max, t.version := max, version;
      assert Shown() == v.(max := newMax);
    }

    /** One pass of the put search: it stops at a sub-stack below the window's max, or else all
        are full. */
    method PutPass(t: Locals, random0: nat) returns (found: bool, random: nat)
      requires Valid() && Synced(t) && t.version == version && random0 <= randomHops
      modifies t`index
      ensures Synced(t) && random <= randomHops
      ensures found ==> |sub[t.index]| < max
      ensures !found ==> Full()
      ensures old(|sub[t.index]| < max) ==> found && t.index == old(t.index)
    {
      var hops: nat := 0;
      random := random0;
      ghost var start: nat := t.index;
      while |sub[t.index]| >= t.max
        invariant Synced(t) && Walk(width, randomHops, start, hops, random, t.index)
        invariant old(|sub[t.index]| < max) ==> t.index == old(t.index)
        invariant forall i: nat :: i < width && Passed(start, hops, width, i) ==> |sub[i]| == max
        decreases randomHops - random, width - hops
      {
        if hops == width {
          PassComplete(width, start);
          return false, random;
        }
        t.index, random, hops, start := Hop(width, randomHops, t.index, random, hops, start);
      }
      return true, random;
    }

    /** The window moves up by one shift exactly when every sub-stack is full, and at most once. */
    method PutWindow(t: Locals, contention: bool)
      requires Valid() && Synced(t)
      modifies this`max, this`version, t
      ensures Valid() && Synced(t) && t.version == version
      ensures max == if old(Full()) then old(max) + shift else old(max)
      ensures version == if old(Full()) then old(version) + 1 else old(version)
      ensures |sub[t.index]| < max
      ensures !contention && old(|sub[t.index]| < max) ==> t.index == old(t.index)
    {
      Sync(t, contention);
      var found, random: nat := false, 0;
      found, random := PutPass(t, random);
      while !found
        invariant Valid() && Synced(t) && t.version == version && random <= randomHops
        invariant if found then |sub[t.index]| < max else Full()
        invariant !contention && old(|sub[t.index]| < max) ==> found && t.index == old(t.index)
        invariant (max == old(max) && version == old(version)) ||
                  (old(Full()) && max == old(max) + shift && version == old(version) + 1 && found)
        decreases !found
      {
        MultipleStep(max - depth, shift);
        assert max - depth + shift == max + shift - depth;
        Shift(t, t.max + shift);
        found, random := PutPass(t, random);
      }
    }

    /** One pass of the get search: it stops at a sub-stack that reaches into the window, or else
        all are drained and it knows whether all are empty. */
    method GetPass(t: Locals, random0: nat) returns (found: bool, empty: bool, random: nat)
      requires Valid() && Synced(t) && t.version == version && random0 <= randomHops
      modifies t`index
      ensures Synced(t) && random <= randomHops
      ensures found ==> |sub[t.index]| + depth > max
      ensures !found ==> Drained() && (empty <==> Empty())
      ensures old(|sub[t.index]| + depth > max) ==> found && t.index == old(t.index)
    {
      var hops: nat := 0;
      random, empty := random0, true;
      ghost var start: nat := t.index;
      while !(|sub[t.index]| + depth > t.max)
        invariant Synced(t) && Walk(width, randomHops, start, hops, random, t.index)
        invariant old(|sub[t.index]| + depth > max) ==> t.index == old(t.index)
        invariant forall i: nat :: i < width && Passed(start, hops, width, i) ==>
             |sub[i]| + depth == max && (empty ==> sub[i] == [])
        invariant !empty ==> !Empty()
        decreases randomHops - random, width - hops
      {
        if hops == width {
          PassComplete(width, start);
          return false, empty, random;
        }
        if |sub[t.index]| > 0 {
          empty := false;
        }
        t.index, random, hops, start := Hop(width, randomHops, t.index, random, hops, start);
      }
      return true, empty, random;
    }

    /** A drained window that is not at the bottom has a whole shift of room below it, so the guard
        against going below the depth never keeps it from moving. */
    lemma RoomToShift()
      requires Valid() && Drained() && !Empty()
      ensures max - shift >= depth && Multiple(max - shift - depth, shift)
    {
      RoomBelow(max - depth, shift);
    }

    /** The window moves down by one shift exactly when every sub-stack is drained but some are not
        empty, at most once, and never below the depth; empty is reported exactly when all are. */
    method GetWindow(t: Locals, contention: bool) returns (found: bool)
      requires Valid() && Synced(t)
      modifies this`max, this`version, t
      ensures Valid() && Synced(t) && t.version == version
      ensures found <==> !old(Empty())
      ensures max == if old(Drained()) && !old(Empty()) then old(max) - shift else old(max)
      ensures version == if old(Drained()) && !old(Empty()) then old(version) + 1 else old(version)
      ensures found ==> |sub[t.index]| + depth > max
      ensures !found ==> sub[t.index] == []
      ensures !contention && old(|sub[t.index]| + depth > max) ==> t.index == old(t.index)
    {
      Sync(t, contention);
      var empty, random: nat := true, 0;
      found, empty, random := GetPass(t, random);
      while !found && !empty
        invariant Valid() && Synced(t) && t.version == version && random <= randomHops
        invariant found ==> |sub[t.index]| + depth > max
        invariant !found ==> Drained() && (empty <==> Empty())
        invariant !contention && old(|sub[t.index]| + depth > max) ==> found && t.index == old(t.index)
        invariant (max == old(max) && version == old(version)) ||
                  (old(Drained()) && !old(Empty()) && max == old(max) - shift && version == old(version) + 1 && found)
        decreases !found
      {
        RoomToShift();
        if t.max - shift >= depth {
          Shift(t, t.max - shift);
        }
        found, empty, random := GetPass(t, random);
      }
    }

    method Push(t: Locals, val: int)
      requires Valid() && Synced(t)
      modifies this`max, this`version, this`order, sub, t
      ensures Valid() && Synced(t) && t.version == version
      ensures order == old(order) + [Item(t.index, |sub[t.index]|, max, val)]
      ensures max == if old(Full()) then old(max) + shift else old(max)
      ensures version == if old(Full()) then old(version) + 1 else old(version)
      ensures sub[..] == old(sub[..])[t.index := old(sub[..])[t.index] + [order[|old(order)|]]]
      ensures old(|sub[t.index]| < max) ==> t.index == old(t.index)
    {
      PutWindow(t, false);
      var i := t.index;
      ghost var v := Shown();
      var x := Item(i, |sub[i]| + 1, max, val);
      PushKeeps(v, x);
      sub[i] := sub[i] + [x];
      order := order + [x];
      assert Shown() == Pushed(v, x);
    }

    /** The promise of the framework: at most 2 * depth * (width - 1) younger items are left behind,
        whatever the shift; in fact for each shift there is a smaller bound. */
    method Pop(t: Locals) returns (r: Option<int>, ghost k: nat)
      requires Valid() && Synced(t)
      modifies this`max, this`version, this`order, sub, t
      ensures Valid() && Synced(t) && t.version == version
      ensures r.None? <==> old(order) == []
      ensures r.None? ==> order == []
      ensures r.Some? ==> Takes(old(order), k, order) && r.value == old(order)[k].val
      ensures r.Some? ==> |order| - k <= LeftBehind(width, depth, shift) <= bound
      ensures r.None? ==> sub[..] == old(sub[..])
      ensures r.Some? ==> IsTop(old(sub[..]), t.index, old(order)[k])
      ensures r.Some? ==> sub[..] == old(sub[..])[t.index := Below(old(sub[..])[t.index])]
      ensures old(|sub[t.index]| + depth > max) ==> t.index == old(t.index)
      ensures max == if old(Drained()) && !old(Empty()) then old(max) - shift else old(max)
      ensures version == if old(Drained()) && !old(Empty()) then old(version) + 1 else old(version)
    {
      ghost var v0 := Shown();
      EmptyOrder(v0);
      var found := GetWindow(t, false);
      k := 0;
      var i := t.index;
      if sub[i] == [] {
        return None, 0;
      }
      ghost var v := Shown();
      k := TopTaken(v, i);
      r := Some(sub[i][|sub[i]| - 1].val);
      sub[i] := sub[i][..|sub[i]| - 1];
      order := Without(order, k);
      assert Shown() == Popped(v, i, k);
      BoundFits(width, depth, shift);
    }
  }

  lemma RoomBelow(x: nat, shift: nat)
    requires Multiple(x, shift) && x > 0
    ensures x >= shift && Multiple(x - shift, shift)
  {
    var m: nat :| x == Times(m, shift);
    TimesMonotone(1, m, shift);
    assert x - shift == Times(m - 1, shift);
  }

  /** Never as much as the bound the stack is given. */
  lemma BoundFits(width: nat, depth: nat, shift: nat)
    requires width >= 1 && 1 <= shift <= depth
    ensures LeftBehind(width, depth, shift) <= (2 * depth - 1) * (width - 1) <= 2 * depth * (width - 1)
  {
    Division(depth - 1, shift);
    assert Times((depth - 1) / shift, shift) <= depth - 1;
    TimesMonotone(Reach(depth, shift), 2 * depth - 1, width - 1);
    TimesMonotone(2 * depth - 1, 2 * depth, width - 1);
  }

  function Below(s: seq<Item>): seq<Item> { if s == [] then [] else s[..|s| - 1] }

  predicate IsTop(sub: seq<seq<Item>>, i: nat, x: Item) {
    i < |sub| && sub[i] != [] && sub[i][|sub[i]| - 1] == x
  }
}
