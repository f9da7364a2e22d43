/** Whole runs of the relaxed structures at operation level: any number of threads, each with windows
    and an index of its own, take turns in any order.  A history lists what every operation did to the
    list of all items. */
module Runs {
  import opened Accounting
  import opened Relaxation
  import opened LateralWindows
  import Window2Dd
  import Queue2D
  import LawQueue
  import Stack2Dc

  datatype Call =
    | Put(thread: nat, val: int)
    | Take(thread: nat)
    | SetWidth(width: nat)
    | SetDepth(depth: nat)

  /** What a call came to: an item went in, the item at place k came out, or nothing changed. */
  datatype Did = Added(x: Item) | Removed(k: nat) | Nothing

  ghost predicate Moves(before: seq<Item>, did: Did, after: seq<Item>) {
    match did
    case Added(x) => after == before + [x]
    case Removed(k) => Takes(before, k, after)
    case Nothing => after == before
  }

  /** orders[i] is the list of all items before the i-th call. */
  ghost predicate IsHistory(orders: seq<seq<Item>>, did: seq<Did>) {
    && |orders| == |did| + 1
    && forall i {:trigger Moves(orders[i], did[i], orders[i + 1])} :: 0 <= i < |did| ==>
        Moves(orders[i], did[i], orders[i + 1])
  }

  /** What a call answers: a put adds its value; a take answers nothing exactly when there is nothing,
      and otherwise the value of the item it removed. */
  ghost predicate Answers(call: Call, before: seq<Item>, did: Did, result: Option<int>) {
    match call
    case Put(_, val) => did.Added? && did.x.val == val && result.None?
    case Take(_) =>
      && (result.None? <==> before == []) && (result.None? ==> did.Nothing?)
      && (result.Some? ==> did.Removed? && did.k < |before| && result.value == before[did.k].val)
    case _ => did.Nothing? && result.None?
  }

  ghost predicate Answered(schedule: seq<Call>, orders: seq<seq<Item>>, did: seq<Did>, results: seq<Option<int>>) {
    && |results| == |did| <= |schedule| && |did| < |orders|
    && forall i {:trigger Answers(schedule[i], orders[i], did[i], results[i])} :: 0 <= i < |did| ==>
         Answers(schedule[i], orders[i], did[i], results[i])
  }

  /** No removal overtakes more than k older items. */
  ghost predicate OvertakesAtMost(did: seq<Did>, k: int) {
    forall d :: d in did && d.Removed? ==> d.k <= k
  }

  /** No removal overtakes more older items than the window of the removed item allows. */
  ghost predicate OvertakesWithin(orders: seq<seq<Item>>, did: seq<Did>, wins: seq<Win>) {
    |did| <= |orders| && forall i {:trigger RemovalWithin(orders[i], did[i], wins)} :: 0 <= i < |did| ==>
        RemovalWithin(orders[i], did[i], wins)
  }

  ghost predicate RemovalWithin(before: seq<Item>, did: Did, wins: seq<Win>) {
    did.Removed? ==>
      && did.k < |before| && before[did.k].win < |wins|
      && did.k <= wins[before[did.k].win].depth * (wins[before[did.k].win].width - 1)
  }

  /** No removal leaves more than k younger items behind. */
  ghost predicate LeavesAtMost(orders: seq<seq<Item>>, did: seq<Did>, k: int) {
    |did| <= |orders| && forall i :: 0 <= i < |did| && did[i].Removed? ==> |orders[i]| - 1 - did[i].k <= k
  }

  ghost predicate ByThreads(schedule: seq<Call>, n: nat) {
    forall c :: c in schedule ==> match c case Put(t, _) => t < n case Take(t) => t < n case _ => true
  }

  ghost predicate NoSetting(schedule: seq<Call>) {
    forall c :: c in schedule ==> c.Put? || c.Take?
  }

  lemma HistoryGrows(orders: seq<seq<Item>>, did: seq<Did>, d: Did, after: seq<Item>)
    requires IsHistory(orders, did) && Moves(orders[|did|], d, after)
    ensures IsHistory(orders + [after], did + [d])
  {
    var orders1, did1 := orders + [after], did + [d];
    forall i {:trigger Moves(orders1[i], did1[i], orders1[i + 1])} | 0 <= i < |did1|
      ensures Moves(orders1[i], did1[i], orders1[i + 1])
    {
      if i < |did| { assert Moves(orders[i], did[i], orders[i + 1]); }
    }
  }

  lemma AnswersGrow(schedule: seq<Call>, orders: seq<seq<Item>>, did: seq<Did>, results: seq<Option<int>>, d: Did,
                    after: seq<Item>, r: Option<int>)
    requires Answered(schedule, orders, did, results) && |did| < |schedule| && |orders| == |did| + 1
    requires Answers(schedule[|did|], orders[|did|], d, r)
    ensures Answered(schedule, orders + [after], did + [d], results + [r])
  {
    var orders1, did1, results1 := orders + [after], did + [d], results + [r];
    forall i {:trigger Answers(schedule[i], orders1[i], did1[i], results1[i])} | 0 <= i < |did1|
      ensures Answers(schedule[i], orders1[i], did1[i], results1[i])
    {
      if i < |did| { assert Answers(schedule[i], orders[i], did[i], results[i]); }
    }
  }

  // ---------------------------------------------------------------------------------------------
  // Nothing is lost or invented

  /** The items added by, and removed in, the first n calls. */
  function ItemsIn(did: seq<Did>, n: nat): multiset<Item>
    requires n <= |did|
  {
    if n == 0 then multiset{} else ItemsIn(did, n - 1) + AddedBy(did[n - 1])
  }

  function ItemsOut(orders: seq<seq<Item>>, did: seq<Did>, n: nat): multiset<Item>
    requires n <= |did| && |orders| == |did| + 1
  {
    if n == 0 then multiset{} else ItemsOut(orders, did, n - 1) + RemovedBy(orders[n - 1], did[n - 1])
  }

  function AddedBy(did: Did): multiset<Item> {
    if did.Added? then multiset{did.x} else multiset{}
  }

  function RemovedBy(before: seq<Item>, did: Did): multiset<Item> {
    if did.Removed? && did.k < |before| then multiset{before[did.k]} else multiset{}
  }

  lemma WithoutOne(s: seq<Item>, k: nat)
    requires k < |s|
    ensures multiset(s) == multiset(Without(s, k)) + multiset{s[k]}
  {
    assert s == s[..k] + [s[k]] + s[k + 1..];
  }

  lemma MoveConserves(before: seq<Item>, did: Did, after: seq<Item>)
    requires Moves(before, did, after)
    ensures multiset(before) + AddedBy(did) == multiset(after) + RemovedBy(before, did)
  {
    if did.Removed? { WithoutOne(before, did.k); }
  }

  lemma Rebalance<T(!new)>(start: multiset<T>, ins: multiset<T>, now: multiset<T>, outs: multiset<T>,
                           added: multiset<T>, next: multiset<T>, removed: multiset<T>)
    requires start + ins == now + outs && now + added == next + removed
    ensures start + (ins + added) == next + (outs + removed)
  {
    var left, right := start + (ins + added), next + (outs + removed);
    forall x: T ensures left[x] == right[x] {
      assert (start + ins)[x] == (now + outs)[x] && (now + added)[x] == (next + removed)[x];
    }
    assert left == right;
  }

  /** What was there and what went in is what came out and what is left, each item as often. */
  lemma {:induction false} Conserved(orders: seq<seq<Item>>, did: seq<Did>, n: nat)
    requires IsHistory(orders, did) && n <= |did|
    ensures multiset(orders[0]) + ItemsIn(did, n) == multiset(orders[n]) + ItemsOut(orders, did, n)
  {
    if n > 0 {
      var i := n - 1;
      Conserved(orders, did, i);
      assert Moves(orders[i], did[i], orders[i + 1]);
      MoveConserves(orders[i], did[i], orders[i + 1]);
      Rebalance(multiset(orders[0]), ItemsIn(did, i), multiset(orders[i]), ItemsOut(orders, did, i),
                AddedBy(did[i]), multiset(orders[n]), RemovedBy(orders[i], did[i]));
    }
  }

  // ---------------------------------------------------------------------------------------------
  // The static queue

  ghost predicate StaticReady(q: Queue2D.Queue, threads: seq<Window2Dd.Locals>)
    reads q, q.w, q.w.put, q.w.get, q.sub, threads
  {
    q.Valid() && forall t :: t in threads ==> t.index < q.w.width
  }

  method StaticCall(q: Queue2D.Queue, threads: seq<Window2Dd.Locals>, call: Call) returns (r: Option<int>, ghost d: Did)
    requires StaticReady(q, threads) && ByThreads([call], |threads|) && NoSetting([call])
    modifies q`order, q.w`putMax, q.w`getMax, q.w.put, q.w.get, q.sub, threads
    ensures StaticReady(q, threads)
    ensures Moves(old(q.order), d, q.order) && Answers(call, old(q.order), d, r)
    ensures d.Removed? ==> d.k <= q.w.depth * (q.w.width - 1) <= q.bound
  {
    assert call in [call];
    r, d := None, Nothing;
    match call {
      case Put(t, val) =>
        q.Enqueue(threads[t], val);
        d := Added(q.order[|old(q.order)|]);
      case Take(t) =>
        ghost var k;
        r, k := q.Dequeue(threads[t]);
        d := if r.Some? then Removed(k) else Nothing;
    }
  }

  /** Over every schedule of any threads: every dequeue overtakes at most depth * (width - 1) older
      items, which is at most the relaxation bound, and empty is reported exactly when it is so. */
  method RunStaticQueue(q: Queue2D.Queue, threads: seq<Window2Dd.Locals>, schedule: seq<Call>)
    returns (results: seq<Option<int>>, ghost orders: seq<seq<Item>>, ghost did: seq<Did>)
    requires StaticReady(q, threads) && ByThreads(schedule, |threads|) && NoSetting(schedule)
    modifies q`order, q.w`putMax, q.w`getMax, q.w.put, q.w.get, q.sub, threads
    ensures StaticReady(q, threads)
    ensures IsHistory(orders, did) && orders[0] == old(q.order) && orders[|did|] == q.order
    ensures |did| == |schedule| && Answered(schedule, orders, did, results)
    ensures OvertakesAtMost(did, q.w.depth * (q.w.width - 1)) && q.w.depth * (q.w.width - 1) <= q.bound
  {
    results, orders, did := [], [q.order], [];
    for n := 0 to |schedule|
      invariant StaticReady(q, threads)
      invariant |did| == n && IsHistory(orders, did) && orders[0] == old(q.order) && orders[n] == q.order
      invariant Answered(schedule, orders, did, results)
      invariant OvertakesAtMost(did, q.w.depth * (q.w.width - 1))
    {
      assert schedule[n] in schedule;
      ghost var d;
      var r;
      r, d := StaticCall(q, threads, schedule[n]);
      HistoryGrows(orders, did, d, q.order);
      AnswersGrow(schedule, orders, did, results, d, q.order, r);
      orders, did, results := orders + [q.order], did + [d], results + [r];
    }
  }

  /** The bound is tight: for every width and depth some dequeue overtakes exactly that many.  Threads at
      all sub-queues but the last fill the window; then one item goes into the last sub-queue, and is
      the first to come out. */
  method BoundReached(width: nat, depth: nat) returns (q: Queue2D.Queue, ghost before: seq<Item>, ghost k: nat)
    requires width >= 1 && depth >= 1
    ensures q.Valid() && q.w.width == width && q.w.depth == depth
    ensures Takes(before, k, q.order) && k == depth * (width - 1)
  {
    q := new Queue2D.Queue(0, width, depth, 0, 0);
    for i := 0 to width - 1
      invariant q.Valid() && fresh(q) && fresh(q.w) && fresh(q.w.put) && fresh(q.w.get) && fresh(q.sub)
      invariant q.w.putMax == q.w.getMax == depth && |q.order| == depth * i
      invariant forall a :: 0 <= a < width ==> q.w.get[a] == 0 && q.w.put[a] == if a < i then depth else 0
      invariant forall x :: x in q.order ==> x.q < i
    {
      FillColumn(q, i);
      assert depth * (i + 1) == depth * i + depth;
    }
    before, k := LastFirst(q);
  }

  /** With every sub-queue but the last filled, a thread at the last one puts an item and takes it. */
  method LastFirst(q: Queue2D.Queue) returns (ghost before: seq<Item>, ghost k: nat)
    requires q.Valid() && q.w.putMax == q.w.getMax == q.w.depth
    requires q.w.put[q.w.width - 1] == q.w.get[q.w.width - 1] == 0
    requires forall x :: x in q.order ==> x.q < q.w.width - 1
    modifies q`order, q.w`putMax, q.w`getMax, q.w.put, q.w.get, q.sub
    ensures q.Valid() && Takes(before, k, q.order) && k == |old(q.order)|
  {
    var t := new Window2Dd.Locals();
    t.index := q.w.width - 1;
    q.Enqueue(t, 0);
    assert q.w.put[..][t.index] == 1 && q.order[|old(q.order)|].q == t.index;
    before := q.order;
    k := TakeNewest(q, t);
  }

  /** A thread at the only sub-queue with the newest item takes that item. */
  method TakeNewest(q: Queue2D.Queue, t: Window2Dd.Locals) returns (ghost k: nat)
    requires q.Valid() && t.index < q.w.width && q.w.get[t.index] < q.w.getMax && q.w.get[t.index] != q.w.put[t.index]
    requires q.order != [] && forall a :: 0 <= a < |q.order| ==> (q.order[a].q == t.index <==> a == |q.order| - 1)
    modifies q`order, q.w`getMax, q.w.get, q.sub, t
    ensures q.Valid() && Takes(old(q.order), k, q.order) && k == |old(q.order)| - 1
  {
    var r;
    r, k := q.Dequeue(t);
  }

  method FillColumn(q: Queue2D.Queue, i: nat)
    requires q.Valid() && i + 1 < q.w.width && q.w.putMax == q.w.getMax == q.w.depth
    requires q.w.put[i] == 0 && q.w.put[i + 1] == 0
    modifies q`order, q.w`putMax, q.w.put, q.sub
    ensures q.Valid() && q.w.putMax == q.w.depth && |q.order| == |old(q.order)| + q.w.depth
    ensures q.w.put[..] == old(q.w.put[..])[i := q.w.depth]
    ensures forall x :: x in q.order ==> x in old(q.order) || x.q == i
  {
    var t := new Window2Dd.Locals();
    t.index := i;
    for j := 0 to q.w.depth
      invariant q.Valid() && q.w.putMax == q.w.depth && |q.order| == |old(q.order)| + j && fresh(t) && t.index == i
      invariant q.w.put[..] == old(q.w.put[..])[i := j]
      invariant forall x :: x in q.order ==> x in old(q.order) || x.q == i
    {
      assert q.w.put[..][i + 1] == 0 && q.w.put[..][i] == j;
      q.Enqueue(t, 0);
    }
  }

  // ---------------------------------------------------------------------------------------------
  // The elastic queue

  ghost predicate ElasticReady(q: LawQueue.Queue, threads: seq<LawQueue.Locals>)
    reads q, q.put, q.get, q.sub, threads
  {
    q.Valid() && q.Settled() && forall t :: t in threads ==> q.Knows(t)
  }

  /** Settings from which a window can be made. */
  ghost predicate Settable(schedule: seq<Call>, maxWidth: nat) {
    forall c :: c in schedule ==>
        match c case SetWidth(w) => 1 <= w <= maxWidth case SetDepth(d) => d >= 1 case _ => true
  }

  method ElasticCall(q: LawQueue.Queue, threads: seq<LawQueue.Locals>, call: Call)
    returns (r: Option<int>, ghost d: Did)
    requires ElasticReady(q, threads) && ByThreads([call], |threads|) && Settable([call], q.maxWidth)
    modifies q, q.put, q.get, q.sub, threads
    ensures ElasticReady(q, threads) && old(q.wins) <= q.wins
    ensures Moves(old(q.order), d, q.order) && Answers(call, old(q.order), d, r)
    ensures RemovalWithin(old(q.order), d, q.wins)
  {
    assert call in [call];
    r, d := None, Nothing;
    match call {
      case Put(t, val) =>
        q.Enqueue(threads[t], val);
        d := Added(q.order[|old(q.order)|]);
      case Take(t) =>
        ghost var k;
        r, k := q.Dequeue(threads[t]);
        d := if r.Some? then Removed(k) else Nothing;
      case SetWidth(w) =>
        var previous := q.UpdateWidth(w);
      case SetDepth(depth) =>
        var previous := q.UpdateDepth(depth);
    }
  }

  lemma WithinGrows(orders: seq<seq<Item>>, did: seq<Did>, wins: seq<Win>, wins1: seq<Win>, d: Did, after: seq<Item>)
    requires OvertakesWithin(orders, did, wins) && wins <= wins1 && |orders| == |did| + 1
    requires RemovalWithin(orders[|did|], d, wins1)
    ensures OvertakesWithin(orders + [after], did + [d], wins1)
  {
    var orders1, did1 := orders + [after], did + [d];
    forall i {:trigger RemovalWithin(orders1[i], did1[i], wins1)} | 0 <= i < |did1|
      ensures RemovalWithin(orders1[i], did1[i], wins1)
    {
      if i < |did| { assert RemovalWithin(orders[i], did[i], wins); }
    }
  }

  /** Over every schedule of any threads, with width and depth changed at any point: every dequeue
      overtakes at most depth * (width - 1) older items, for the window its item was enqueued in, and
      empty is reported exactly when it is so. */
  method RunElasticQueue(q: LawQueue.Queue, threads: seq<LawQueue.Locals>, schedule: seq<Call>)
    returns (results: seq<Option<int>>, ghost orders: seq<seq<Item>>, ghost did: seq<Did>)
    requires ElasticReady(q, threads) && ByThreads(schedule, |threads|) && Settable(schedule, q.maxWidth)
    modifies q, q.put, q.get, q.sub, threads
    ensures ElasticReady(q, threads) && old(q.wins) <= q.wins
    ensures IsHistory(orders, did) && orders[0] == old(q.order) && orders[|did|] == q.order
    ensures |did| == |schedule| && Answered(schedule, orders, did, results)
    ensures OvertakesWithin(orders, did, q.wins)
  {
    results, orders, did := [], [q.order], [];
    for n := 0 to |schedule|
      invariant ElasticReady(q, threads) && old(q.wins) <= q.wins
      invariant |did| == n && IsHistory(orders, did) && orders[0] == old(q.order) && orders[n] == q.order
      invariant Answered(schedule, orders, did, results)
      invariant OvertakesWithin(orders, did, q.wins)
    {
      assert schedule[n] in schedule;
      ghost var d, wins := Nothing, q.wins;
      var r;
      r, d := ElasticCall(q, threads, schedule[n]);
      HistoryGrows(orders, did, d, q.order);
      AnswersGrow(schedule, orders, did, results, d, q.order, r);
      WithinGrows(orders, did, wins, q.wins, d, q.order);
      orders, did, results := orders + [q.order], did + [d], results + [r];
    }
  }

  // ---------------------------------------------------------------------------------------------
  // The stack

  ghost predicate StackReady(q: Stack2Dc.Stack, threads: seq<Stack2Dc.Locals>)
    reads q, q.sub, threads
  {
    q.Valid() && forall t :: t in threads ==> q.Synced(t)
  }

  method StackCall(q: Stack2Dc.Stack, threads: seq<Stack2Dc.Locals>, call: Call) returns (r: Option<int>, ghost d: Did)
    requires StackReady(q, threads) && ByThreads([call], |threads|) && NoSetting([call])
    modifies q, q.sub, threads
    ensures StackReady(q, threads)
    ensures Moves(old(q.order), d, q.order) && Answers(call, old(q.order), d, r)
    ensures d.Removed? ==> |old(q.order)| - 1 - d.k <= Stack2Dc.LeftBehind(q.width, q.depth, q.shift) <= q.bound
  {
    assert call in [call];
    r, d := None, Nothing;
    match call {
      case Put(t, val) =>
        q.Push(threads[t], val);
        d := Added(q.order[|old(q.order)|]);
      case Take(t) =>
        ghost var k;
        r, k := q.Pop(threads[t]);
        d := if r.Some? then Removed(k) else Nothing;
    }
  }

  /** Over every schedule of any threads: every pop leaves at most so many younger items behind, which is
      within the relaxation bound, and empty is reported exactly when it is so. */
  method RunStack(q: Stack2Dc.Stack, threads: seq<Stack2Dc.Locals>, schedule: seq<Call>)
    returns (results: seq<Option<int>>, ghost orders: seq<seq<Item>>, ghost did: seq<Did>)
    requires StackReady(q, threads) && ByThreads(schedule, |threads|) && NoSetting(schedule)
    modifies q, q.sub, threads
    ensures StackReady(q, threads)
    ensures IsHistory(orders, did) && orders[0] == old(q.order) && orders[|did|] == q.order
    ensures |did| == |schedule| && Answered(schedule, orders, did, results)
    ensures LeavesAtMost(orders, did, Stack2Dc.LeftBehind(q.width, q.depth, q.shift))
    ensures Stack2Dc.LeftBehind(q.width, q.depth, q.shift) <= q.bound
  {
    results, orders, did := [], [q.order], [];
    Stack2Dc.BoundFits(q.width, q.depth, q.shift);
    for n := 0 to |schedule|
      invariant StackReady(q, threads)
      invariant |did| == n && IsHistory(orders, did) && orders[0] == old(q.order) && orders[n] == q.order
      invariant Answered(schedule, orders, did, results)
      invariant LeavesAtMost(orders, did, Stack2Dc.LeftBehind(q.width, q.depth, q.shift))
    {
      assert schedule[n] in schedule;
      ghost var d;
      var r;
      r, d := StackCall(q, threads, schedule[n]);
      HistoryGrows(orders, did, d, q.order);
      AnswersGrow(schedule, orders, did, results, d, q.order, r);
      orders, did, results := orders + [q.order], did + [d], results + [r];
    }
  }

  /** As many items are listed as the sub-stacks hold. */
  ghost predicate Counted(q: Stack2Dc.Stack) reads q, q.sub {
    |q.order| == Sum(Heights(q.sub[..]))
  }

  function Heights(sub: seq<seq<Item>>): seq<nat> {
    seq(|sub|, i requires 0 <= i < |sub| => |sub[i]|)
  }

  lemma HeightChanged(sub: seq<seq<Item>>, i: nat, s: seq<Item>)
    requires i < |sub|
    ensures Sum(Heights(sub[i := s])) == Sum(Heights(sub)) - |sub[i]| + |s|
  {
    SumUpdate(Heights(sub), i, |s|);
    assert Heights(sub[i := s]) == Heights(sub)[i := |s|];
  }

  /** The oldest r items are the lowest r of sub-stack 0. */
  ghost predicate Foot(order: seq<Item>, r: nat) {
    |order| >= r && forall a :: 0 <= a < r ==> order[a].q == 0 && order[a].row == a + 1
  }

  /** A thread at sub-stack i fills it up to the window. */
  method FillStack(q: Stack2Dc.Stack, i: nat)
    requires q.Valid() && i < q.width && Counted(q)
    modifies q`max, q`version, q`order, q.sub
    ensures q.Valid() && Counted(q) && q.max == old(q.max) && |q.sub[i]| == q.max
    ensures forall j :: 0 <= j < q.width && j != i ==> q.sub[j] == old(q.sub[j])
    ensures old(q.order) <= q.order && |q.order| == |old(q.order)| + q.max - |old(q.sub[i])|
    ensures forall a :: |old(q.order)| <= a < |q.order| ==>
        q.order[a].q == i && q.order[a].row == |old(q.sub[i])| + 1 + a - |old(q.order)|
  {
    var t := new Stack2Dc.Locals();
    t.index := i;
    while |q.sub[i]| < q.max
      invariant fresh(t) && q.Valid() && q.Synced(t) && t.index == i && Counted(q)
      invariant q.max == old(q.max) && |q.sub[i]| <= q.max
      invariant forall j :: 0 <= j < q.width && j != i ==> q.sub[j] == old(q.sub[j])
      invariant old(q.order) <= q.order && |q.order| == |old(q.order)| + |q.sub[i]| - |old(q.sub[i])|
      invariant forall a :: |old(q.order)| <= a < |q.order| ==>
          q.order[a].q == i && q.order[a].row == |old(q.sub[i])| + 1 + a - |old(q.order)|
      decreases q.max - |q.sub[i]|
    {
      PushAt(q, t);
    }
  }

  /** A push by a thread that is where there is room. */
  method PushAt(q: Stack2Dc.Stack, t: Stack2Dc.Locals)
    requires q.Valid() && q.Synced(t) && Counted(q) && |q.sub[t.index]| < q.max
    modifies q`max, q`version, q`order, q.sub, t
    ensures q.Valid() && q.Synced(t) && Counted(q) && q.max == old(q.max) && t.index == old(t.index)
    ensures |q.order| == |old(q.order)| + 1 && old(q.order) <= q.order
    ensures var x := q.order[|old(q.order)|];
            && x.q == t.index && x.row == |old(q.sub[t.index])| + 1
            && q.sub[..] == old(q.sub[..])[t.index := old(q.sub[..])[t.index] + [x]]
  {
    ghost var sub := q.sub[..];
    q.Push(t, 0);
    HeightChanged(sub, t.index, q.sub[t.index]);
  }

  /** Threads at all sub-stacks fill the window. */
  method FillStacks(q: Stack2Dc.Stack, ghost r: nat)
    requires q.Valid() && Counted(q) && Foot(q.order, r)
    modifies q`max, q`version, q`order, q.sub
    ensures q.Valid() && Counted(q) && Foot(q.order, r) && q.max == old(q.max) && q.Full()
  {
    for i := 0 to q.width
      invariant q.Valid() && Counted(q) && Foot(q.order, r) && q.max == old(q.max)
      invariant forall j :: 0 <= j < i ==> |q.sub[j]| == q.max
    {
      FillStack(q, i);
    }
  }

  /** The next push moves the window up. */
  method Raise(q: Stack2Dc.Stack, ghost r: nat)
    requires q.Valid() && Counted(q) && Foot(q.order, r) && q.Full()
    modifies q`max, q`version, q`order, q.sub
    ensures q.Valid() && Counted(q) && Foot(q.order, r) && q.max == old(q.max) + q.shift && q.Full()
  {
    var t := new Stack2Dc.Locals();
    ghost var sub := q.sub[..];
    q.Push(t, 0);
    HeightChanged(sub, t.index, q.sub[t.index]);
    FillStacks(q, r);
  }

  /** A pop by a thread at sub-stack 0, where there is something to take. */
  method PopFirst(q: Stack2Dc.Stack) returns (ghost k: nat)
    requires q.Valid() && Counted(q) && |q.sub[0]| + q.depth > q.max && |q.sub[0]| >= 1
    modifies q`max, q`version, q`order, q.sub
    ensures q.Valid() && Counted(q) && q.max == old(q.max)
    ensures Takes(old(q.order), k, q.order) && Stack2Dc.IsTop(old(q.sub[..]), 0, old(q.order)[k])
    ensures q.sub[..] == old(q.sub[..])[0 := Stack2Dc.Below(old(q.sub[..])[0])]
  {
    var t := new Stack2Dc.Locals();
    ghost var sub := q.sub[..];
    Stack2Dc.EmptyOrder(q.Shown());
    assert !q.Empty() && !q.Drained();
    var v;
    v, k := q.Pop(t);
    HeightChanged(sub, 0, q.sub[0]);
  }

  /** An item of sub-stack 0 has its place by its row, if that is among the lowest r. */
  lemma FootPlace(v: Stack2Dc.View, r: nat, k: nat)
    requires Stack2Dc.Ok(v) && Foot(v.order, r) && v.width >= 1 && k < |v.order|
    requires Stack2Dc.IsTop(v.sub, 0, v.order[k])
    ensures if |v.sub[0]| <= r then k == |v.sub[0]| - 1 else k >= r
  {
    assert Stack2Dc.Filed(v, 0);
    var n := |v.sub[0]|;
    if n <= r {
      assert v.order[n - 1].q == 0 && v.order[n - 1].row == n;
    }
  }

  /** The bound for pops is tight as well: for every width, depth and shift some pop leaves exactly that many
      younger items behind.  The item in question is pushed in the first window, at a row the last of
      the windows that can still take it reaches down to; all else is pushed after it. */
  method StackBoundReached(width: nat, depth: nat, shift: nat)
    returns (q: Stack2Dc.Stack, ghost before: seq<Item>, ghost k: nat)
    requires width >= 1 && 1 <= shift <= depth
    ensures q.Valid() && q.width == width && q.depth == depth && q.shift == shift
    ensures Takes(before, k, q.order) && |q.order| - k == Stack2Dc.LeftBehind(width, depth, shift)
  {
    q := new Stack2Dc.Stack.WithShift(width, depth, shift);
    var shifts := (depth - 1) / shift;
    var r := Times(shifts, shift) + 1;
    Division(depth - 1, shift);
    FillFirst(q, r);
    RaiseBy(q, shifts, r);
    before, k := PopDown(q, r);
  }

  method FillFirst(q: Stack2Dc.Stack, ghost r: nat)
    requires q.Valid() && q.order == [] && r <= q.max
    modifies q`max, q`version, q`order, q.sub
    ensures q.Valid() && Counted(q) && Foot(q.order, r) && q.Full() && q.max == old(q.max)
  {
    Stack2Dc.EmptyOrder(q.Shown());
    EmptyHeights(q.sub[..]);
    FillStack(q, 0);
    FillStacks(q, r);
  }

  method RaiseBy(q: Stack2Dc.Stack, shifts: nat, ghost r: nat)
    requires q.Valid() && Counted(q) && Foot(q.order, r) && q.Full()
    modifies q`max, q`version, q`order, q.sub
    ensures q.Valid() && Counted(q) && Foot(q.order, r) && q.Full() && q.max == old(q.max) + Times(shifts, q.shift)
  {
    for j := 0 to shifts
      invariant q.Valid() && Counted(q) && Foot(q.order, r) && q.Full()
      invariant q.max == old(q.max) + Times(j, q.shift)
    {
      Raise(q, r);
      assert Times(j + 1, q.shift) == Times(j, q.shift) + q.shift;
    }
  }

  lemma {:induction false} EmptyHeights(sub: seq<seq<Item>>)
    requires forall i :: 0 <= i < |sub| ==> sub[i] == []
    ensures Sum(Heights(sub)) == 0
  {
    SumBounded(Heights(sub), 0);
  }

  /** Sub-stack 0 is popped down to the item at row r, and that is popped last. */
  method PopDown(q: Stack2Dc.Stack, ghost r: nat) returns (ghost before: seq<Item>, ghost k: nat)
    requires q.Valid() && Counted(q) && Foot(q.order, r) && q.Full() && 1 <= r && q.max + 1 == r + q.depth
    modifies q`max, q`version, q`order, q.sub
    ensures q.Valid() && Takes(before, k, q.order) && |q.order| - k == q.max * (q.width - 1) && q.max == old(q.max)
  {
    while |q.sub[0]| + q.depth > q.max + 1
      invariant q.Valid() && Counted(q) && Foot(q.order, r) && q.max == old(q.max) && r <= |q.sub[0]|
      invariant forall j :: 0 < j < q.width ==> |q.sub[j]| == q.max
      decreases |q.sub[0]|
    {
      ghost var v := q.Shown();
      k := PopFirst(q);
      FootPlace(v, r, k);
    }
    ghost var v := q.Shown();
    before := q.order;
    k := PopFirst(q);
    FootPlace(v, r, k);
    AllButFirst(Heights(q.sub[..]), r - 1, q.max);
  }

  lemma {:induction false} AllButFirst(s: seq<nat>, first: nat, rest: nat)
    requires |s| >= 1 && s[0] == first && forall i :: 0 < i < |s| ==> s[i] == rest
    ensures Sum(s) == first + rest * (|s| - 1)
    decreases |s|
  {
    if |s| > 1 {
      AllButFirst(s[..|s| - 1], first, rest);
      assert rest * (|s| - 1) == rest * (|s| - 2) + rest;
    }
  }
}
