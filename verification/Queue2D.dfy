/** The static 2D queue at operation level: enqueue and dequeue run one at a time, by any thread,
    from any index, with any window the thread still remembers. */
module Queue2D {
  import opened Relaxation
  import opened Search
  import opened Window2Dd

  /** What a queue holds: the counts and items of each sub-queue, the windows, and the list of all
      items in the order they were enqueued. */
  datatype View = View(width: nat, depth: nat, put: seq<nat>, get: seq<nat>, sub: seq<seq<Item>>, putMax: nat,
                       getMax: nat, order: seq<Item>)

  ghost predicate Shaped(v: View) {
    && v.depth >= 1 && |v.put| == |v.get| == |v.sub| == v.width
    && (forall i :: 0 <= i < v.width ==> v.put[i] == v.get[i] + |v.sub[i]|)
    && (forall i :: 0 <= i < v.width ==> v.put[i] <= v.putMax <= v.put[i] + v.depth)
    && (forall i :: 0 <= i < v.width ==> v.get[i] <= v.getMax <= v.get[i] + v.depth)
    && Multiple(v.putMax, v.depth) && Multiple(v.getMax, v.depth)
  }

  /** An item is in its sub-queue, at its row, and was put under the window its row lies in. */
  ghost predicate Placed(v: View, x: Item)
    requires Shaped(v)
  {
    && x.q < v.width && v.get[x.q] < x.row <= v.put[x.q] && v.sub[x.q][x.row - v.get[x.q] - 1] == x
    && x.row <= x.win < x.row + v.depth && Multiple(x.win, v.depth) && x.win <= v.putMax
  }

  /** Enqueue order: windows only move up, and each sub-queue is FIFO. */
  ghost predicate Before(x: Item, y: Item) {
    x.win <= y.win && (x.q == y.q ==> x.row < y.row)
  }

  ghost predicate Listed(v: View) requires Shaped(v) {
    forall a :: 0 <= a < |v.order| ==> Placed(v, v.order[a])
  }

  ghost predicate Ordered(order: seq<Item>) {
    forall a, b :: 0 <= a < b < |order| ==> Before(order[a], order[b])
  }

  /** The i-th sub-queue holds consecutive rows of items in the list. */
  ghost predicate Filed(v: View, i: nat) requires Shaped(v) && i < v.width {
    forall k :: 0 <= k < |v.sub[i]| ==>
         v.sub[i][k].q == i && v.sub[i][k].row == v.get[i] + 1 + k && v.sub[i][k] in v.order
  }

  ghost predicate Ok(v: View) {
    Shaped(v) && Listed(v) && Ordered(v.order) && forall i :: 0 <= i < v.width ==> Filed(v, i)
  }

  function Enqueued(v: View, x: Item): View
    requires Shaped(v) && x.q < v.width
  {
    v.(put := v.put[x.q := v.put[x.q] + 1], sub := v.sub[x.q := v.sub[x.q] + [x]], order := v.order + [x])
  }

  function Dequeued(v: View, i: nat, k: nat): View
    requires Shaped(v) && i < v.width && v.sub[i] != [] && k < |v.order|
  {
    v.(get := v.get[i := v.get[i] + 1], sub := v.sub[i := v.sub[i][1..]], order := Without(v.order, k))
  }

  /** Moving a window moves no item. */
  lemma WindowsMove(v: View, putMax: nat, getMax: nat)
    requires Ok(v) && v.putMax <= putMax && Shaped(v.(putMax := putMax, getMax := getMax))
    ensures Ok(v.(putMax := putMax, getMax := getMax))
  {
    var v1 := v.(putMax := putMax, getMax := getMax);
    forall a | 0 <= a < |v1.order| ensures Placed(v1, v1.order[a]) { assert Placed(v, v.order[a]); }
    forall i | 0 <= i < v1.width ensures Filed(v1, i) { assert Filed(v, i); }
  }

  lemma EnqueueKeeps(v: View, x: Item)
    requires Ok(v) && x.q < v.width && v.put[x.q] < v.putMax
    requires x.row == v.put[x.q] + 1 && x.win == v.putMax
    ensures Ok(Enqueued(v, x))
  {
    var v1 := Enqueued(v, x);
    forall a | 0 <= a < |v1.order| ensures Placed(v1, v1.order[a]) {
      if a < |v.order| { assert Placed(v, v.order[a]); }
    }
    forall a, b | 0 <= a < b < |v1.order| ensures Before(v1.order[a], v1.order[b]) {
      assert Placed(v, v.order[a]);
      if b < |v.order| { assert Before(v.order[a], v.order[b]); }
    }
    forall i | 0 <= i < v.width ensures Filed(v1, i) {
      assert Filed(v, i);
      assert forall y :: y in v.order ==> y in v1.order;
      assert x in v1.order;
    }
  }

  /** An item inside the get window was put in the window the get window is now at. */
  lemma InGetWindow(v: View, x: Item)
    requires Ok(v) && Placed(v, x) && x.row <= v.getMax
    ensures x.win == v.getMax
  {
    if x.win < v.getMax { MultiplesApart(x.win, v.getMax, v.depth); }
    if v.getMax < x.win { MultiplesApart(v.getMax, x.win, v.depth); }
  }

  /** The counting argument: everything older than the front item of a sub-queue inside the get
      window lies in that same window, in other sub-queues. */
  lemma Rank(v: View, k: nat)
    requires Ok(v) && k < |v.order|
    requires Placed(v, v.order[k]) ==> v.order[k].row == v.get[v.order[k].q] + 1 <= v.getMax
    ensures k <= v.depth * (v.width - 1)
  {
    var x := v.order[k];
    assert Placed(v, x);
    InGetWindow(v, x);
    var older := v.order[..k];
    var low := if v.getMax >= v.depth then v.getMax - v.depth else 0;
    forall a | 0 <= a < |older|
      ensures older[a].q < v.width && older[a].q != x.q && low < older[a].row <= low + v.depth
    {
      assert Placed(v, v.order[a]) && Before(v.order[a], x);
    }
    forall a, b | 0 <= a < b < |older| ensures older[a].q != older[b].q || older[a].row != older[b].row {
      assert Before(v.order[a], v.order[b]);
    }
    AreaBound(older, v.width, x.q, low, v.depth);
  }

  lemma DequeuePlaced(v: View, i: nat, k: nat, y: Item)
    requires Ok(v) && i < v.width && v.sub[i] != [] && k < |v.order| && v.order[k] == v.sub[i][0]
    requires Shaped(Dequeued(v, i, k)) && Placed(v, v.order[k])
    requires Placed(v, y) && (y.q == i ==> y.row != v.order[k].row)
    ensures Placed(Dequeued(v, i, k), y)
  {
  }

  lemma DequeueListed(v: View, i: nat, k: nat)
    requires Ok(v) && i < v.width && v.sub[i] != [] && k < |v.order| && v.order[k] == v.sub[i][0]
    requires v.get[i] < v.getMax
    ensures Shaped(Dequeued(v, i, k)) && Listed(Dequeued(v, i, k))
  {
    var v1 := Dequeued(v, i, k);
    assert Filed(v, i) && v.order[k].q == i;
    assert Shaped(v1);
    forall a | 0 <= a < |v1.order| ensures Placed(v1, v1.order[a]) {
      var b := if a < k then a else a + 1;
      assert v1.order[a] == v.order[b];
      assert if b < k then Before(v.order[b], v.order[k]) else Before(v.order[k], v.order[b]);
      DequeuePlaced(v, i, k, v.order[b]);
    }
  }

  lemma DequeueFiled(v: View, i: nat, k: nat, j: nat)
    requires Ok(v) && i < v.width && v.sub[i] != [] && k < |v.order| && v.order[k] == v.sub[i][0] && j < v.width
    requires Shaped(Dequeued(v, i, k))
    ensures Filed(Dequeued(v, i, k), j)
  {
    var v1 := Dequeued(v, i, k);
    assert Filed(v, i) && Filed(v, j);
    forall m | 0 <= m < |v1.sub[j]| ensures v1.sub[j][m] in v1.order {
      var y := v.sub[j][if j == i then m + 1 else m];
      assert y in v.order && y != v.order[k];
      InWithout(v.order, k, y);
    }
  }

  lemma DequeueKeeps(v: View, i: nat, k: nat)
    requires Ok(v) && i < v.width && v.sub[i] != [] && k < |v.order| && v.order[k] == v.sub[i][0]
    requires v.get[i] < v.getMax
    ensures Ok(Dequeued(v, i, k))
  {
    var v1 := Dequeued(v, i, k);
    DequeueListed(v, i, k);
    forall a, b | 0 <= a < b < |v1.order| ensures Before(v1.order[a], v1.order[b]) {
      assert Before(v.order[if a < k then a else a + 1], v.order[if b < k then b else b + 1]);
    }
    forall j | 0 <= j < v.width ensures Filed(v1, j) {
      DequeueFiled(v, i, k, j);
    }
  }

  /** Taking the front item of a sub-queue inside the get window. */
  lemma FrontTaken(v: View, i: nat) returns (k: nat)
    requires Ok(v) && i < v.width && v.sub[i] != [] && v.get[i] < v.getMax
    ensures k < |v.order| && v.order[k] == v.sub[i][0] && v.order[k].q == i && k <= v.depth * (v.width - 1)
    ensures Ok(Dequeued(v, i, k))
  {
    assert Filed(v, i) && v.sub[i][0] in v.order;
    k :| 0 <= k < |v.order| && v.order[k] == v.sub[i][0];
    Rank(v, k);
    DequeueKeeps(v, i, k);
  }

  lemma EmptyOrder(v: View)
    requires Ok(v)
    ensures v.order == [] <==> forall i :: 0 <= i < v.width ==> v.put[i] == v.get[i]
  {
    if v.order != [] {
      assert Placed(v, v.order[0]);
    }
    forall i | 0 <= i < v.width && v.put[i] != v.get[i] ensures v.order != [] {
      assert Filed(v, i) && v.sub[i][0] in v.order;
    }
  }

  class Queue {
    const w: Windows
    const sub: array<seq<Item>>   // the items of each sub-queue, front first
    const bound: nat              // relaxation_bound
    ghost var order: seq<Item>    // all items in the queue, in the order they were enqueued

    ghost function Shown(): View
      reads this, w, w.put, w.get, sub
    {
      View(w.width, w.depth, w.put[..], w.get[..], sub[..], w.putMax, w.getMax, order)
    }

    ghost predicate Valid()
      reads this, w, w.put, w.get, sub
    {
      w.Valid() && sub.Length == w.width && WithinBound(1, w.width, w.depth, bound) && Ok(Shown())
    }

    constructor (numThreads: nat, width: nat, depth: nat, kMode: nat, requested: nat)
      requires kMode <= 3 && (kMode == 0 ==> width >= 1) && (kMode == 2 ==> depth >= 1)
      ensures w.depth >= 1 <==> Usable(numThreads, width, depth, kMode, requested)
      ensures w.depth >= 1 ==> Valid()
      ensures fresh(w) && fresh(w.put) && fresh(w.get) && fresh(sub) && order == []
      ensures w.putMax == w.getMax == w.depth && w.put.Length == w.get.Length == w.width
      ensures forall i :: 0 <= i < w.width ==> w.put[i] == 0 && w.get[i] == 0
      ensures Derived(1, numThreads, width, depth, kMode, requested, w.width, w.depth, bound)
      ensures w.randomHops == RANDOM_HOPS
    {
      var width', depth', bound' := Parameters(1, numThreads, width, depth, kMode, requested);
      var windows := new Windows(width', depth', depth');
      var empty: seq<Item> := [];
      sub := new seq<Item>[width'](_ => empty);
      w, bound, order := windows, bound', [];
    }

    method Enqueue(t: Locals, val: int)
      requires Valid() && t.index < w.width
      modifies this`order, w`putMax, w.put, sub, t
      ensures Valid() && t.index < w.width
      ensures order == old(order) + [Item(t.index, w.put[t.index], w.putMax, val)]
      ensures w.put[..] == old(w.put[..])[t.index := old(w.put[..])[t.index] + 1]
      ensures w.putMax == if old(w.Full()) then old(w.putMax) + w.depth else old(w.putMax)
      // a thread stays where there is room
      ensures old(w.put[t.index] < w.putMax) ==> t.index == old(t.index)
    {
      ghost var v := Shown();
      w.PutWindow(t, false);
      assert Shown() == v.(putMax := w.putMax);
      WindowsMove(v, w.putMax, v.getMax);
      Append(t.index, val);
    }

    /** Linking the node and advancing the put descriptor. */
    method Append(i: nat, val: int)
      requires Valid() && i < w.width && w.put[i] < w.putMax
      modifies this`order, w.put, sub
      ensures Valid() && order == old(order) + [Item(i, w.put[i], w.putMax, val)]
      ensures w.put[..] == old(w.put[..])[i := old(w.put[..])[i] + 1]
    {
      ghost var v := Shown();
      var x := Item(i, w.put[i] + 1, w.putMax, val);
      EnqueueKeeps(v, x);
      sub[i] := sub[i] + [x];
      w.put[i] := w.put[i] + 1;
      order := order + [x];
      assert Shown() == Enqueued(v, x);
    }

    /** The promise of the framework: with k = depth * (width - 1), only one of the first k + 1
        items may be taken, and the queue reports empty exactly when it is empty. */
    method Dequeue(t: Locals) returns (r: Option<int>, ghost k: nat)
      requires Valid() && t.index < w.width
      modifies this`order, w`getMax, w.get, sub, t
      ensures Valid() && t.index < w.width
      ensures r.None? <==> old(order) == []
      ensures r.None? ==> order == []
      ensures r.Some? ==> Takes(old(order), k, order) && r.value == old(order)[k].val
      ensures r.Some? ==> k <= w.depth * (w.width - 1) <= bound
      ensures r.Some? ==> old(order)[k].q == t.index
      ensures old(w.get[t.index] < w.getMax && w.put[t.index] != w.get[t.index]) ==> t.index == old(t.index)
      ensures w.get[..] == if r.None? then old(w.get[..]) else old(w.get[..])[t.index := old(w.get[..])[t.index] + 1]
      ensures w.getMax == old(GetShifted())
    {
      var found := Find(t);
      k := 0;
      if w.get[t.index] == w.put[t.index] {
        return None, 0;
      }
      var val;
      val, k := TakeFront(t.index);
      r := Some(val);
    }

    /** The get window is searched; nothing is found exactly when the whole queue is empty. */
    method Find(t: Locals) returns (found: bool)
      requires Valid() && t.index < w.width
      modifies w`getMax, t`getMax, t`index
      ensures Valid() && t.index < w.width && w.getMax == old(GetShifted())
      ensures found <==> order != []
      ensures if found then w.get[t.index] < w.getMax && w.get[t.index] < w.put[t.index]
              else w.get[t.index] == w.put[t.index]
      ensures old(w.get[t.index] < w.getMax && w.put[t.index] != w.get[t.index]) ==> t.index == old(t.index)
    {
      ghost var v := Shown();
      EmptyOrder(v);
      found := w.GetWindow(t, false);
      assert Shown() == v.(getMax := w.getMax);
      WindowsMove(v, v.putMax, w.getMax);
    }

    /** Where the get window goes: on exactly when it is drained and something is above it. */
    ghost function GetShifted(): nat
      requires Valid()
      reads this, w, w.put, w.get, sub
    {
      if w.Drained() && !w.Empty() then w.getMax + w.depth else w.getMax
    }

    /** Swinging the get descriptor to the next node. */
    method TakeFront(i: nat) returns (val: int, ghost k: nat)
      requires Valid() && i < w.width && w.get[i] < w.getMax && w.get[i] < w.put[i]
      modifies this`order, w.get, sub
      ensures Valid() && Takes(old(order), k, order) && val == old(order)[k].val
      ensures k <= w.depth * (w.width - 1) && old(order)[k].q == i
      ensures w.get[..] == old(w.get[..])[i := old(w.get[..])[i] + 1]
    {
      ghost var v := Shown();
      k := FrontTaken(v, i);
      val := sub[i][0].val;
      sub[i] := sub[i][1..];
      w.get[i] := w.get[i] + 1;
      order := Without(order, k);
      assert Shown() == Dequeued(v, i, k);
    }
  }
}
