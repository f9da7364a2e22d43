/** The queues and the stack as they are measured: every operation is mirrored in the recorder within
    the same critical section, with stamps counted up under the lock in place of the values. */
module Measured {
  import opened Relaxation
  import opened LateralWindows
  import Recorder
  import Window2Dd
  import Queue2D
  import LawQueue
  import Stack2Dc

  function Stamps(order: seq<Item>): seq<int> {
    seq(|order|, i requires 0 <= i < |order| => order[i].val)
  }

  /** A queue's copy grows at the tail (end 0), a stack's at the head (end 1). */
  function Copy(end: int, order: seq<Item>): seq<int> {
    if end == 0 then Stamps(order) else seq(|order|, i requires 0 <= i < |order| => order[|order| - 1 - i].val)
  }

  /** How many elements of the copy are ahead of the item at place k. */
  function Ahead(end: int, order: seq<Item>, k: nat): nat requires k < |order| {
    if end == 0 then k else |order| - 1 - k
  }

  /** Stamps rise in the order the items were put, so they are distinct. */
  ghost predicate Rising(s: seq<int>, last: nat) {
    (forall a, b :: 0 <= a < b < |s| ==> s[a] < s[b]) && forall a :: 0 <= a < |s| ==> s[a] <= last
  }

  lemma RisingWithout(s: seq<int>, last: nat, k: nat)
    requires Rising(s, last) && k < |s|
    ensures Rising(Without(s, k), last)
  {
  }

  lemma StampsWithout(order: seq<Item>, k: nat)
    requires k < |order|
    ensures Stamps(Without(order, k)) == Without(Stamps(order), k)
  {
  }

  lemma CopyWithout(end: int, order: seq<Item>, k: nat)
    requires k < |order|
    ensures |Copy(end, order)| == |order|
    ensures Copy(end, Without(order, k)) == Without(Copy(end, order), Ahead(end, order, k))
  {
    StampsWithout(order, k);
    var s, t := Copy(end, Without(order, k)), Without(Copy(end, order), Ahead(end, order, k));
    assert |s| == |t|;
    if end != 0 {
      forall a | 0 <= a < |s| ensures s[a] == t[a] {}
    }
  }

  /** What the recorder finds and what was taken are the same place. */
  lemma SamePlace(end: int, order: seq<Item>, last: nat, j: nat, k: nat)
    requires Rising(Stamps(order), last) && j < |order| && k < |order| && Copy(end, order)[j] == order[k].val
    ensures j == Ahead(end, order, k) && Copy(end, Without(order, k)) == Without(Copy(end, order), j)
    ensures Rising(Stamps(Without(order, k)), last)
  {
    var i := Ahead(end, order, j);
    assert Stamps(order)[i] == Stamps(order)[k];
    CopyWithout(end, order, k);
    StampsWithout(order, k);
    RisingWithout(Stamps(order), last, k);
  }

  lemma Stamped(end: int, order: seq<Item>, x: Item, last: nat)
    requires Rising(Stamps(order), last) && x.val == last + 1
    ensures Copy(end, order + [x]) == if end == 0 then Copy(end, order) + [x.val] else [x.val] + Copy(end, order)
    ensures Rising(Stamps(order + [x]), last + 1)
  {
    assert Stamps(order + [x]) == Stamps(order) + [x.val];
  }

  /** The recorder together with gen_relaxation_count. */
  class Mirror {
    const rec: Recorder.Recorder
    const end: int
    var stamp: nat

    ghost predicate Shows(order: seq<Item>)
      reads this, rec, rec.clone, rec.dists, rec.clone.nodes, rec.dists.nodes
    {
      && rec.Valid() && (end == 0 || end == 1)
      && rec.clone.values == Copy(end, order) && Rising(Stamps(order), stamp)
    }

    constructor (end: int)
      requires end == 0 || end == 1
      ensures Shows([]) && stamp == 0 && this.end == end && rec.dists.values == []
      ensures fresh(rec) && fresh(rec.clone) && fresh(rec.dists)
    {
      rec := new Recorder.Recorder();
      this.end, stamp := end, 0;
    }

    /** The part of enq_cas or stack_cae after an item was put. */
    method Put(ghost order: seq<Item>, ghost x: Item)
      requires Shows(order) && x.val == stamp + 1
      modifies this`stamp, rec.clone, rec.clone.nodes
      ensures Shows(order + [x]) && stamp == old(stamp) + 1
    {
      Stamped(end, order, x, stamp);
      stamp := stamp + 1;
      var ok := rec.AddLinear(stamp, end);
    }

    /** The part of deq_cae or stack_cae after the item at place k was taken. */
    method Take(val: int, ghost order: seq<Item>, ghost k: nat)
      requires Shows(order) && k < |order| && order[k].val == val
      modifies rec.clone, rec.clone.nodes, rec.dists, rec.dists.nodes
      ensures Shows(Without(order, k)) && rec.dists.values == old(rec.dists.values) + [Ahead(end, order, k)]
    {
      assert Copy(end, order)[Ahead(end, order, k)] == val;
      var j := rec.RemoveLinear(val);
      SamePlace(end, order, stamp, j, k);
    }
  }

  class StaticQueue {
    const q: Queue2D.Queue
    const m: Mirror

    /** Every distance recorded so far is within the relaxation. */
    ghost predicate Valid()
      reads this, q, q.w, q.w.put, q.w.get, q.sub, m, m.rec, m.rec.clone, m.rec.dists, m.rec.clone.nodes,
          m.rec.dists.nodes
    {
      && q.Valid() && m.Shows(q.order) && m.end == 0
      && forall d :: d in m.rec.dists.values ==> 0 <= d <= q.w.depth * (q.w.width - 1)
    }

    constructor (numThreads: nat, width: nat, depth: nat, kMode: nat, requested: nat)
      requires kMode <= 3 && (kMode == 0 ==> width >= 1) && (kMode == 2 ==> depth >= 1)
      ensures Usable(numThreads, width, depth, kMode, requested) ==> Valid()
      ensures q.order == [] && (kMode != 0 ==> q.bound <= requested)
    {
      q := new Queue2D.Queue(numThreads, width, depth, kMode, requested);
      m := new Mirror(0);
    }

    method Enqueue(t: Window2Dd.Locals)
      requires Valid() && t.index < q.w.width
      modifies q`order, q.w`putMax, q.w.put, q.sub, t, m`stamp, m.rec.clone, m.rec.clone.nodes
      ensures Valid() && t.index < q.w.width && m.rec.dists.values == old(m.rec.dists.values)
      ensures exists x: Item :: q.order == old(q.order) + [x] && x.val == m.stamp == old(m.stamp) + 1
    {
      ghost var order := q.order;
      q.Enqueue(t, m.stamp + 1);
      ghost var x := q.order[|order|];
      assert q.order == order + [x];
      m.Put(order, x);
    }

    /** The distance recorded for a dequeue is the number of older items it overtook, so it is at most
        depth * (width - 1), and that is at most the requested bound. */
    method Dequeue(t: Window2Dd.Locals) returns (r: Option<int>, ghost k: nat)
      requires Valid() && t.index < q.w.width
      modifies q`order, q.w`getMax, q.w.get, q.sub, t, m.rec.clone, m.rec.clone.nodes, m.rec.dists, m.rec.dists.nodes
      ensures Valid() && t.index < q.w.width
      ensures r.None? <==> old(q.order) == []
      ensures r.None? ==> m.rec.dists.values == old(m.rec.dists.values)
      ensures r.Some? ==> Takes(old(q.order), k, q.order) && m.rec.dists.values == old(m.rec.dists.values) + [k]
      ensures r.Some? ==> k <= q.w.depth * (q.w.width - 1) <= q.bound
    {
      ghost var order := q.order;
      r, k := TakeStatic(q, t);
      if r.Some? {
        m.Take(r.value, order, k);
      }
    }
  }

  /** A dequeue, as far as the measuring is concerned. */
  method TakeStatic(q: Queue2D.Queue, t: Window2Dd.Locals) returns (r: Option<int>, ghost k: nat)
    requires q.Valid() && t.index < q.w.width
    modifies q`order, q.w`getMax, q.w.get, q.sub, t
    ensures q.Valid() && t.index < q.w.width
    ensures r.None? <==> old(q.order) == []
    ensures r.None? ==> q.order == []
    ensures r.Some? ==> Takes(old(q.order), k, q.order) && r.value == old(q.order)[k].val
    ensures r.Some? ==> k <= q.w.depth * (q.w.width - 1) <= q.bound
  {
    r, k := q.Dequeue(t);
  }

  /** An enqueue, as far as the measuring is concerned. */
  method PutElastic(q: LawQueue.Queue, t: LawQueue.Locals, val: int) returns (ghost x: Item)
    requires q.Valid() && q.Knows(t) && q.Settled()
    modifies q`wins, q`order, q.put, q.sub, t
    ensures q.Valid() && q.Knows(t) && old(q.wins) <= q.wins && q.order == old(q.order) + [x] && x.val == val
  {
    q.Enqueue(t, val);
    x := q.order[|old(q.order)|];
  }

  class ElasticQueue {
    const q: LawQueue.Queue
    const m: Mirror

    ghost predicate Valid()
      reads this, q, q.put, q.get, q.sub, m, m.rec, m.rec.clone, m.rec.dists, m.rec.clone.nodes, m.rec.dists.nodes
    {
      && q.Valid() && m.Shows(q.order) && m.end == 0 && AllWithin(q.wins, m.rec.dists.values)
    }

    constructor (numThreads: nat, width0: nat, depth0: nat, maxWidth0: nat, kMode: nat, requested: nat)
      requires kMode <= 3 && (kMode == 0 ==> width0 >= 1) && (kMode == 2 ==> depth0 >= 1)
      ensures Usable(numThreads, width0, depth0, kMode, requested) ==> Valid() && q.Settled()
      ensures q.order == []
    {
      q := new LawQueue.Queue(numThreads, width0, depth0, maxWidth0, kMode, requested);
      m := new Mirror(0);
    }

    method Enqueue(t: LawQueue.Locals)
      requires Valid() && q.Knows(t) && q.Settled()
      modifies q`wins, q`order, q.put, q.sub, t, m`stamp, m.rec.clone, m.rec.clone.nodes
      ensures Valid() && q.Knows(t) && m.rec.dists.values == old(m.rec.dists.values)
      ensures old(q.wins) <= q.wins
      ensures exists x: Item :: q.order == old(q.order) + [x] && x.val == m.stamp == old(m.stamp) + 1
    {
      ghost var order, wins := q.order, q.wins;
      ghost var x := PutElastic(q, t, m.stamp + 1);
      WithinGrows(wins, q.wins, m.rec.dists.values);
      m.Put(order, x);
    }

    /** Under any changes of width and depth, the distance recorded for a dequeue is the number of
        older items overtaken, and within the relaxation of the window the item was enqueued in. */
    method Dequeue(t: LawQueue.Locals) returns (r: Option<int>, ghost k: nat)
      requires Valid() && q.Knows(t)
      modifies q`head, q`order, q.get, q.sub, t, m.rec.clone, m.rec.clone.nodes, m.rec.dists, m.rec.dists.nodes
      ensures Valid() && q.Knows(t)
      ensures r.None? <==> old(q.order) == []
      ensures r.None? ==> m.rec.dists.values == old(m.rec.dists.values)
      ensures r.Some? ==> Takes(old(q.order), k, q.order) && m.rec.dists.values == old(m.rec.dists.values) + [k]
      ensures r.Some? ==> q.Overtakes(old(q.order)[k], k)
      ensures old(q.head) <= q.head
    {
      ghost var order := q.order;
      r, k := q.Dequeue(t);
      if r.Some? {
        WithinOne(q.wins, m.rec.dists.values, order[k].win, k);
        m.Take(r.value, order, k);
      }
    }
  }

  ghost predicate WithinWindow(w: Win, d: int) { 0 <= d <= w.depth * (w.width - 1) }

  /** A distance within the relaxation of one of the windows there have been. */
  ghost predicate Within(wins: seq<Win>, d: int) {
    exists k :: 0 <= k < |wins| && WithinWindow(wins[k], d)
  }

  ghost predicate AllWithin(wins: seq<Win>, dists: seq<int>) {
    forall d :: d in dists ==> Within(wins, d)
  }

  lemma WithinGrows(wins: seq<Win>, wins1: seq<Win>, dists: seq<int>)
    requires wins <= wins1 && AllWithin(wins, dists)
    ensures AllWithin(wins1, dists)
  {
    forall d | d in dists ensures Within(wins1, d) {
      var k :| 0 <= k < |wins| && WithinWindow(wins[k], d);
      assert wins1[k] == wins[k];
    }
  }

  lemma WithinOne(wins: seq<Win>, dists: seq<int>, k: nat, d: int)
    requires AllWithin(wins, dists) && k < |wins| && WithinWindow(wins[k], d)
    ensures AllWithin(wins, dists + [d])
  {
  }

  class Stack {
    const q: Stack2Dc.Stack
    const m: Mirror

    ghost predicate Valid()
      reads this, q, q.sub, m, m.rec, m.rec.clone, m.rec.dists, m.rec.clone.nodes, m.rec.dists.nodes
    {
      && q.Valid() && m.Shows(q.order) && m.end == 1
      && forall d :: d in m.rec.dists.values ==> 0 <= d <= Stack2Dc.LeftBehind(q.width, q.depth, q.shift)
    }

    constructor (numThreads: nat, width: nat, depth: nat, kMode: nat, requested: nat)
      requires kMode <= 3 && (kMode == 0 ==> width >= 1) && (kMode == 2 ==> depth >= 1)
      ensures Usable(numThreads, width, depth, kMode, requested) ==> Valid()
      ensures q.order == [] && (kMode != 0 ==> q.bound <= requested)
    {
      q := new Stack2Dc.Stack(numThreads, width, depth, kMode, requested);
      m := new Mirror(1);
    }

    constructor WithShift(width: nat, depth: nat, shift: nat)
      requires width >= 1 && 1 <= shift <= depth
      ensures Valid() && q.order == [] && q.width == width && q.depth == depth && q.shift == shift
    {
      q := new Stack2Dc.Stack.WithShift(width, depth, shift);
      m := new Mirror(1);
    }

    method Push(t: Stack2Dc.Locals)
      requires Valid() && q.Synced(t)
      modifies q`max, q`version, q`order, q.sub, t, m`stamp, m.rec.clone, m.rec.clone.nodes
      ensures Valid() && q.Synced(t) && m.rec.dists.values == old(m.rec.dists.values)
      ensures q.max == if old(q.Full()) then old(q.max) + q.shift else old(q.max)
      ensures q.version == if old(q.Full()) then old(q.version) + 1 else old(q.version)
      ensures exists x: Item :: q.order == old(q.order) + [x] && x.val == m.stamp == old(m.stamp) + 1
    {
      ghost var order := q.order;
      q.Push(t, m.stamp + 1);
      ghost var x := q.order[|order|];
      assert q.order == order + [x];
      m.Put(order, x);
    }

    /** The distance recorded for a pop is the number of younger items left behind. */
    method Pop(t: Stack2Dc.Locals) returns (r: Option<int>, ghost k: nat)
      requires Valid() && q.Synced(t)
      modifies q`max, q`version, q`order, q.sub, t, m.rec.clone, m.rec.clone.nodes, m.rec.dists, m.rec.dists.nodes
      ensures Valid() && q.Synced(t)
      ensures r.None? <==> old(q.order) == []
      ensures r.None? ==> m.rec.dists.values == old(m.rec.dists.values)
      ensures r.Some? ==>
           Takes(old(q.order), k, q.order) && m.rec.dists.values == old(m.rec.dists.values) + [|q.order| - k]
      ensures r.Some? ==> |q.order| - k <= Stack2Dc.LeftBehind(q.width, q.depth, q.shift) <= q.bound
      ensures q.max == if old(q.Drained()) && !old(q.Empty()) then old(q.max) - q.shift else old(q.max)
      ensures q.version == if old(q.Drained()) && !old(q.Empty()) then old(q.version) + 1 else old(q.version)
    {
      ghost var order := q.order;
      r, k := q.Pop(t);
      if r.Some? {
        m.Take(r.value, order, k);
      }
    }
  }
}
