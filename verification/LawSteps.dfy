/** The elastic LaW queue at access level: every shared read, CAS and store of enqueue, dequeue and their
    window searches is a step of its own, for any number of threads, while width and depth change.
    Descriptors are read in two halves, in either order.  What holds of the put side and of the list
    of windows is proved here; LawFifo has the get side.

    Windows and nodes are never recycled and each is linked once, so a window is named by its place in
    the lateral and a node of a sub-queue by its place in the list of all nodes ever linked there. */
module LawSteps {
  import opened Descriptor
  import opened History
  import opened Search
  import opened LateralWindows

  /** A width_t is 16 bits wide, and so is the hop counter of a search. */
  const COUNTER: nat := 0x1_0000
  type Width = w: nat | w < COUNTER

  /** rows is history: the row that was given to each confirmed node. */
  datatype Sub = Sub(list: seq<int>, put: Desc, get: Desc, rows: seq<nat>)

  /** Program counters, each naming the access that comes next. */
  datatype Pc =
    | Idle
    | PutEnter(v: int)                              // load lateral->tail
    | PutRead(v: int)                               // first half of the put descriptor
    | PutReadNode(v: int, count: nat)
    | PutReadCount(v: int, node: nat)
    | PutCheck(v: int, node: nat, count: nat)       // load lateral->tail and decide
    | PutShift(v: int)                              // is the tail still the thread's window?
    | ShiftDepth(v: int)                            // read set->depth
    | ShiftWidth(v: int, depth: nat)                // read set->width
    | ShiftCheck(v: int, depth: nat, width: nat)    // shift_put: is it still?
    | ShiftNext(v: int, depth: nat, width: nat)     // read tail_pointer->next
    | ShiftLink(v: int, depth: nat, width: nat)     // CAS tail_pointer->next from NULL
    | ShiftReread(v: int)                           // read tail_pointer->next again
    | ShiftMove(v: int)                             // CAS lateral->tail to it
    | PutResync(v: int)
    | EnqRecheck(v: int, node: nat, count: nat)     // read put_count again
    | EnqNext(v: int, node: nat, count: nat)        // read tail->next
    | EnqLink(v: int, node: nat, count: nat)        // CAS tail->next from NULL
    | EnqHelp(v: int, node: nat, count: nat)        // CAS the put descriptor past tail->next
    | EnqConfirm(node: nat, count: nat)             // CAS the put descriptor to the own node
    | GetEnter                                      // dequeue: load lateral->tail
    | GetLoad                                       // get_window: load lateral->head
    | GetRead                                       // first half of the get descriptor
    | GetReadNode(count: nat)
    | GetReadCount(head: nat)
    | GetReadPut(head: nat, count: nat)             // read put_count, unless the tail is ahead
    | GetCheck(head: nat, count: nat, put: nat)     // load lateral->head and decide
    | GetShift(head: nat, count: nat)               // is the get window the tail?
    | HeadMove                                      // shift_get: CAS lateral->head
    | HeadReload
    | DeqTail(head: nat, count: nat)                // first half of the put descriptor
    | DeqTailNode(head: nat, count: nat, tcount: nat)
    | DeqTailCount(head: nat, count: nat, tail: nat)
    | DeqNext(head: nat, count: nat, tail: nat, tcount: nat)   // read head->next
    | DeqSafe(head: nat, count: nat)                // read head->next, without a look at the tail
    | DeqWindow(node: nat, count: nat)              // read lateral->tail
    | DeqHelp(top: nat, node: nat, count: nat)      // CAS the put descriptor past head->next
    | DeqSwing(head: nat, count: nat, next: bool)   // CAS the get descriptor; next: head->next was not NULL

  /** win is the thread's put window, head its head pointer; its get window is the one after that. */
  datatype Thread = Thread(index: nat, win: nat, head: nat, hops: nat, random: nat, contention: bool, pc: Pc) {
    function To(pc: Pc): Thread { this.(pc := pc) }
    function Hop(width: nat, r: nat): Thread requires width >= 1 {
      if random < RANDOM_HOPS then this.(random := random + 1, index := r % width)
      else this.(hops := if hops + 1 >= COUNTER then 0 else hops + 1, index := NextIndex(width, index))
    }
    /** The put window was found to be another: start over in it. */
    function Sync(win: nat, width: nat): Thread {
      this.(win := win, hops := 0, index := if index >= width then 0 else index)
    }
    /** The head was found to be another. */
    function SyncHead(head: nat, width: nat): Thread {
      this.(head := head, index := if index >= width then 0 else index)
    }
  }

  datatype State = State(maxWidth: Width, wins: seq<Win>, tail: nat, head: nat, width: nat, depth: nat, subs: seq<Sub>,
                         threads: seq<Thread>, crashed: bool) {
    function SetSub(i: nat, x: Sub): State requires i < |subs| { this.(subs := subs[i := x]) }
    function At(t: nat, th: Thread): State requires t < |threads| { this.(threads := threads[t := th]) }
  }

  /** r is a random number, nodeFirst the order in which the halves of a descriptor are read; the index an
      operation starts from is whatever the thread left there. */
  datatype Action =
    | CallEnqueue(v: int, index: nat)
    | CallDequeue(index: nat)
    | UpdateWidth(width: nat)
    | UpdateDepth(depth: nat)
    | Go(r: nat, nodeFirst: bool)

  function Init(maxWidth: Width, width: nat, depth: nat, threadCount: nat): State {
    State(maxWidth, [Win(0, width, 0), Win(depth, width, depth)], 1, 0, width, depth,
          seq(maxWidth, _ => Sub([0], Desc(0, 0), Desc(0, 0), [0])),
          seq(threadCount, _ => Thread(0, 1, 0, 0, 0, false, Idle)), false)
  }

  /** Places named by a thread exist; AllNamed shows that this is never in question. */
  predicate Named(s: State, th: Thread) {
    && th.index < |s.subs| && th.win < |s.wins| && s.tail < |s.wins| && s.wins[s.tail].width >= 1
    && th.head + 1 < |s.wins| && s.wins[th.head + 1].width >= 1
    && (th.pc.DeqHelp? ==> th.pc.top < |s.wins|)
  }

  predicate Enabled(s: State, t: nat, act: Action) {
    && t < |s.threads| && Named(s, s.threads[t]) && !s.crashed
    && match act
       case CallEnqueue(_, index) => s.threads[t].pc.Idle? && index < s.maxWidth
       case CallDequeue(index) => s.threads[t].pc.Idle? && index < s.wins[s.threads[t].head + 1].width
       case UpdateWidth(width) => 1 <= width <= s.maxWidth
       case UpdateDepth(depth) => 1 <= depth
       case Go(_, _) => !s.threads[t].pc.Idle?
  }

  function Step(s: State, t: nat, act: Action): (State, Event)
    requires Enabled(s, t, act)
  {
    var th := s.threads[t];
    match act
    case CallEnqueue(v, index) => (s.At(t, th.(contention := false, index := index).To(PutEnter(v))), Silent)
    case CallDequeue(index) => (s.At(t, th.(contention := false, index := index).To(GetEnter)), Silent)
    case UpdateWidth(width) => (s.(width := width), Silent)
    case UpdateDepth(depth) => (s.(depth := depth), Silent)
    case Go(r, nodeFirst) =>
      var x := s.subs[th.index];
      match th.pc
      case ShiftLink(v, depth, width) =>
        (LinkWindow(s, th, depth, width).At(t, th.To(ShiftReread(v))), Silent)
      case ShiftMove(v) => (MoveTail(s, th).At(t, th.To(PutResync(v))), Silent)
      case EnqLink(v, node, count) =>
        (LinkNode(s, t, v, node, count), if node == |x.list| - 1 then Linked(th.index, v) else Silent)
      case EnqHelp(v, node, count) => (SwapPut(s, t, th.win, node, count, PutEnter(v)), Silent)
      case EnqConfirm(node, count) => (SwapPut(s, t, th.win, node, count, Idle), Silent)
      case DeqHelp(top, node, count) => (SwapPut(s, t, top, node, count, GetLoad), Silent)
      case HeadMove => (MoveHead(s, th).At(t, th.To(HeadReload)), Silent)
      case DeqSwing(head, count, next) => SwapGet(s, t, head, count, next)
      case _ => (s.At(t, Look(s, th, r, nodeFirst)), Answer(th, Look(s, th, r, nodeFirst)))
  }

  /** A read that ends a dequeue answers that there is nothing. */
  function Answer(th: Thread, th1: Thread): Event { if th.pc.DeqNext? && th1.pc.Idle? then Empty(th.index) else Silent }

  /** CAS of the next pointer of the node last read as the tail from NULL to the own node. */
  function LinkNode(s: State, t: nat, v: int, node: nat, count: nat): State
    requires t < |s.threads| && s.threads[t].index < |s.subs|
  {
    var th := s.threads[t];
    var x := s.subs[th.index];
    if node == |x.list| - 1 then s.SetSub(th.index, x.(list := x.list + [v])).At(t, th.To(EnqConfirm(node, count)))
    else s.At(t, th.(contention := true).To(PutEnter(v)))
  }

  /** CAS of the next pointer of the thread's window from NULL to a new window. */
  function LinkWindow(s: State, th: Thread, depth: nat, width: nat): State requires th.win < |s.wins| {
    if |s.wins| == th.win + 1 then s.(wins := s.wins + [Win(s.wins[th.win].max + depth, width, depth)]) else s
  }

  /** CAS of lateral->tail, and of lateral->head, to the window after the one the thread knows. */
  function MoveTail(s: State, th: Thread): State { if s.tail == th.win then s.(tail := th.win + 1) else s }
  function MoveHead(s: State, th: Thread): State { if s.head == th.head then s.(head := th.head + 1) else s }

  /** CAS of the put descriptor of the thread's sub-queue to the next node, at the row that comes next
      after count in window win. */
  function SwapPut(s: State, t: nat, win: nat, node: nat, count: nat, pc: Pc): State
    requires t < |s.threads| && s.threads[t].index < |s.subs| && win < |s.wins|
  {
    var th := s.threads[t];
    var x := s.subs[th.index];
    if x.put == Desc(node, count) then s.SetSub(th.index, Confirmed(x, NextRow(s.wins[win], count))).At(t, th.To(pc))
    else s.At(t, th.(contention := true).To(pc))
  }

  function Confirmed(x: Sub, row: nat): Sub {
    x.(put := Desc(x.put.node + 1, row), rows := x.rows + [row])
  }

  /** CAS of the get descriptor to head->next, at the row that comes next after count in the thread's get
      window.  If head->next was NULL, the value is then read from there, which ends the program. */
  function SwapGet(s: State, t: nat, head: nat, count: nat, next: bool): (State, Event)
    requires t < |s.threads| && s.threads[t].index < |s.subs| && s.threads[t].head + 1 < |s.wins|
  {
    var th := s.threads[t];
    var x := s.subs[th.index];
    if x.get != Desc(head, count) then (s.At(t, th.(contention := true).To(GetLoad)), Silent)
    else if !next then (s.(crashed := true), Silent)
    else
      var y := x.(get := Desc(head + 1, NextRow(s.wins[th.head + 1], count)));
      (s.SetSub(th.index, y).At(t, th.To(Idle)), Taken(th.index, if head + 1 < |x.list| then x.list[head + 1] else 0))
  }

  /** get_window is done: dequeue looks at the tail unless its put window is ahead of its get window. */
  function Returned(s: State, th: Thread, head: nat, count: nat): Thread
    requires th.win < |s.wins| && th.head + 1 < |s.wins|
  {
    th.To(if s.wins[th.win].max > s.wins[th.head + 1].max then DeqSafe(head, count) else DeqTail(head, count))
  }

  /** The steps that only read shared memory. */
  function Look(s: State, th: Thread, r: nat, nodeFirst: bool): Thread
    requires Named(s, th)
  {
    var x, w, gw := s.subs[th.index], s.wins[th.win], s.wins[th.head + 1];
    var top := s.wins[s.tail];
    match th.pc
    case PutEnter(v) =>
      var index := if th.contention || th.index >= top.width then r % top.width else th.index;
      th.(win := s.tail, hops := 0, random := 0, index := index).To(PutRead(v))
    case PutRead(v) => th.To(if nodeFirst then PutReadCount(v, x.put.node) else PutReadNode(v, x.put.count))
    case PutReadNode(v, count) => th.To(PutCheck(v, x.put.node, count))
    case PutReadCount(v, node) => th.To(PutCheck(v, node, x.put.count))
    case PutCheck(v, node, count) =>
      if s.tail != th.win then th.Sync(s.tail, top.width).To(PutRead(v))
      else if count < w.max then th.To(EnqRecheck(v, node, count))
      else if th.hops < w.width then th.Hop(w.width, r).To(PutRead(v))
      else th.To(PutShift(v))
    case PutShift(v) => th.To(if s.tail == th.win then ShiftDepth(v) else PutResync(v))
    case ShiftDepth(v) => th.To(ShiftWidth(v, s.depth))
    case ShiftWidth(v, depth) => th.To(ShiftCheck(v, depth, s.width))
    case ShiftCheck(v, depth, width) => th.To(if s.tail == th.win then ShiftNext(v, depth, width) else PutResync(v))
    case ShiftNext(v, depth, width) =>
      th.To(if th.win + 1 < |s.wins| then ShiftReread(v) else ShiftLink(v, depth, width))
    case ShiftReread(v) => th.To(ShiftMove(v))
    case PutResync(v) => th.Sync(s.tail, top.width).To(PutRead(v))
    case EnqRecheck(v, node, count) => th.To(if x.put.count >= w.max then PutEnter(v) else EnqNext(v, node, count))
    case EnqNext(v, node, count) =>
      th.To(if node + 1 < |x.list| then EnqHelp(v, node, count) else EnqLink(v, node, count))
    case _ => LookGet(s, th, r, nodeFirst)
  }

  function LookGet(s: State, th: Thread, r: nat, nodeFirst: bool): Thread
    requires Named(s, th)
  {
    var x, gw := s.subs[th.index], s.wins[th.head + 1];
    match th.pc
    case GetEnter => th.(win := s.tail).To(GetLoad)
    case GetLoad =>
      var th1 := th.(hops := 0, random := 0, index := if th.contention then r % gw.width else th.index);
      if s.head != th.head && s.head + 1 < |s.wins| then th1.SyncHead(s.head, s.wins[s.head + 1].width).To(GetRead)
      else th1.To(GetRead)
    case GetRead => th.To(if nodeFirst then GetReadCount(x.get.node) else GetReadNode(x.get.count))
    case GetReadNode(count) => th.To(GetReadPut(x.get.node, count))
    case GetReadCount(head) => th.To(GetReadPut(head, x.get.count))
    case GetReadPut(head, count) =>
      th.To(GetCheck(head, count, if s.wins[th.win].max > gw.max then Bottom(s.wins[th.win]) else x.put.count))
    case GetCheck(head, count, put) =>
      if s.head != th.head then
        if s.head + 1 < |s.wins| then th.SyncHead(s.head, s.wins[s.head + 1].width).To(GetRead)
        else Returned(s, th, head, count)
      else if count < gw.max && count < put then Returned(s, th, head, count)
      else if th.hops != gw.width then th.Hop(gw.width, r).To(GetRead)
      else th.To(GetShift(head, count))
    case GetShift(head, count) => if th.head + 1 != s.tail then th.To(HeadMove) else Returned(s, th, head, count)
    case HeadReload =>
      if s.head + 1 < |s.wins| then th.SyncHead(s.head, s.wins[s.head + 1].width).(hops := 0).To(GetRead)
      else th.To(GetRead)
    case _ => LookDeq(s, th, nodeFirst)
  }

  function LookDeq(s: State, th: Thread, nodeFirst: bool): Thread
    requires Named(s, th)
  {
    var x := s.subs[th.index];
    match th.pc
    case DeqTail(head, count) =>
      th.To(if nodeFirst then DeqTailCount(head, count, x.put.node) else DeqTailNode(head, count, x.put.count))
    case DeqTailNode(head, count, tcount) => th.To(DeqNext(head, count, x.put.node, tcount))
    case DeqTailCount(head, count, tail) => th.To(DeqNext(head, count, tail, x.put.count))
    case DeqNext(head, count, tail, tcount) =>
      if head != tail then th.To(DeqSwing(head, count, head + 1 < |x.list|))
      else th.To(if head + 1 < |x.list| then DeqWindow(tail, tcount) else Idle)
    case DeqSafe(head, count) => th.To(DeqSwing(head, count, head + 1 < |x.list|))
    case DeqWindow(node, count) => th.To(DeqHelp(s.tail, node, count))
    case _ => th
  }

  // ---------------------------------------------------------------------------------------------
  // The invariant

  /** Row r belongs to a window that sub-queue i takes part in. */
  ghost predicate Home(wins: seq<Win>, i: nat, r: nat) {
    exists k :: HomeIn(wins, i, r, k)
  }

  ghost predicate HomeIn(wins: seq<Win>, i: nat, r: nat, k: nat) {
    0 < k < |wins| && i < wins[k].width && Bottom(wins[k]) < r <= wins[k].max
  }

  /** The rows given out in sub-queue i are, in order and each once, all the rows up to its put count
      of all the windows it takes part in. */
  ghost predicate RowsOk(wins: seq<Win>, i: nat, x: Sub) {
    && |x.rows| == x.put.node + 1 && x.rows[0] == 0 && x.rows[x.put.node] == x.put.count
    && (forall a, b :: 0 <= a < b < |x.rows| ==> x.rows[a] < x.rows[b])
    && forall r: nat {:trigger Home(wins, i, r)} :: r > 0 ==> (r in x.rows <==> r <= x.put.count && Home(wins, i, r))
  }

  ghost predicate Pending(x: Sub) { |x.list| == x.put.node + 2 }

  ghost predicate Filled(wins: seq<Win>, i: nat, x: Sub, k: nat) requires k < |wins| {
    i < wins[k].width ==> wins[k].max <= x.put.count
  }

  /** At most one node lies beyond the put descriptor, and then the tail window has room for it; the
      windows before the tail were filled. */
  ghost predicate SubOk(wins: seq<Win>, tail: nat, i: nat, x: Sub) {
    && tail < |wins| && x.put.count <= wins[tail].max
    && (Pending(x) || |x.list| == x.put.node + 1)
    && (Pending(x) ==> i < wins[tail].width && x.put.count < wins[tail].max)
    && (forall k :: 0 < k < tail ==> Filled(wins, i, x, k))
    && RowsOk(wins, i, x)
  }

  /** The head is strictly before the tail, and the tail is the last window or the one before it. */
  ghost predicate LateralOk(s: State) {
    && Lateral(s.wins, s.maxWidth) && s.head < s.tail < |s.wins| <= s.tail + 2
    && 1 <= s.width <= s.maxWidth && s.depth >= 1 && |s.subs| == s.maxWidth
  }

  ghost predicate SharedOk(s: State) {
    && LateralOk(s)
    && forall i {:trigger SubOk(s.wins, s.tail, i, s.subs[i])} :: 0 <= i < s.maxWidth ==>
        SubOk(s.wins, s.tail, i, s.subs[i])
  }

  ghost predicate Full(s: State, win: nat, i: nat) requires win < |s.wins| && i < |s.subs| {
    s.wins[win].max <= s.subs[i].put.count
  }

  /** Every sub-queue the search has passed had reached the max of the thread's window. */
  ghost predicate PassedFull(s: State, th: Thread) requires th.win < |s.wins| && s.wins[th.win].width <= |s.subs| {
    var w := s.wins[th.win].width;
    forall i: nat {:trigger Passed(Start(w, th.index, th.hops), th.hops, w, i)} ::
      i < w && Passed(Start(w, th.index, th.hops), th.hops, w, i) ==> Full(s, th.win, i)
  }

  ghost predicate AllFull(s: State, win: nat) requires win < |s.wins| && s.wins[win].width <= |s.subs| {
    forall i :: 0 <= i < s.wins[win].width ==> Full(s, win, i)
  }

  ghost predicate Searching(pc: Pc) {
    pc.PutRead? || pc.PutReadNode? || pc.PutReadCount? || pc.PutCheck?
  }

  ghost predicate Shifting(pc: Pc) {
    pc.PutShift? || pc.ShiftDepth? || pc.ShiftWidth? || pc.ShiftCheck? || pc.ShiftNext? || pc.ShiftLink? ||
        pc.ShiftReread? || pc.ShiftMove?
  }

  ghost predicate Enqueuing(pc: Pc) {
    pc.EnqRecheck? || pc.EnqNext? || pc.EnqLink? || pc.EnqHelp? || pc.EnqConfirm?
  }

  ghost predicate Dequeuing(pc: Pc) {
    || pc.GetEnter? || pc.GetLoad? || pc.GetRead? || pc.GetReadNode? || pc.GetReadCount? || pc.GetReadPut?
    || pc.GetCheck? || pc.GetShift? || pc.HeadMove? || pc.HeadReload?
    || pc.DeqTail? || pc.DeqTailNode? || pc.DeqTailCount? || pc.DeqNext? || pc.DeqSafe?
    || pc.DeqWindow? || pc.DeqHelp? || pc.DeqSwing?
  }

  /** If the put descriptor still stands at node, there is room in window w for the node after it. */
  ghost predicate Room(w: Win, x: Sub, node: nat) {
    x.put.node == node ==> x.put.count < w.max
  }

  /** What a thread's place in the program says about the sub-queue it is at. */
  ghost predicate PcOk(s: State, w: Win, x: Sub, pc: Pc) {
    match pc
    case PutReadNode(_, count) => count <= x.put.count
    case PutReadCount(_, node) => node <= x.put.node
    case PutCheck(_, node, count) => node <= x.put.node && count <= x.put.count
    case ShiftWidth(_, depth) => depth >= 1
    case ShiftCheck(_, depth, width) => depth >= 1 && 1 <= width <= s.maxWidth
    case ShiftNext(_, depth, width) => depth >= 1 && 1 <= width <= s.maxWidth
    case ShiftLink(_, depth, width) => depth >= 1 && 1 <= width <= s.maxWidth
    case EnqRecheck(_, node, _) => node <= x.put.node
    case EnqNext(_, node, _) => node <= x.put.node && Room(w, x, node)
    case EnqLink(_, node, _) => node <= x.put.node && Room(w, x, node)
    case EnqHelp(_, node, _) => node <= x.put.node && node + 1 < |x.list| && Room(w, x, node)
    case EnqConfirm(node, _) => node <= x.put.node && node + 1 < |x.list| && Room(w, x, node)
    case DeqTailCount(_, _, tail) => tail <= x.put.node
    case DeqNext(_, _, tail, _) => tail <= x.put.node
    case DeqWindow(node, _) => node <= x.put.node && node + 1 < |x.list|
    case DeqHelp(top, node, _) =>
      node <= x.put.node && node + 1 < |x.list| && top <= s.tail && (x.put.node == node ==> top == s.tail)
    case _ => true
  }

  ghost predicate ThreadOk(s: State, th: Thread) {
    && th.index < |s.subs| && 1 <= th.win <= s.tail < |s.wins| && th.head <= s.head && th.random <= RANDOM_HOPS
    && 1 <= s.wins[th.win].width <= |s.subs| == s.maxWidth
    && var w := s.wins[th.win];
    && (Searching(th.pc) ==>
         th.index < w.width && th.hops <= w.width && PassedFull(s, th) && (th.hops > 0 ==> th.random == RANDOM_HOPS))
    && (Enqueuing(th.pc) ==> th.index < w.width)
    && th.head + 1 < |s.wins| && 1 <= s.wins[th.head + 1].width <= |s.subs|
    && (Dequeuing(th.pc) ==> th.index < s.wins[th.head + 1].width)
    && (Shifting(th.pc) ==> AllFull(s, th.win))
    && (th.pc.ShiftReread? || th.pc.ShiftMove? ==> th.win + 1 < |s.wins|)
    && (th.pc.HeadMove? ==> th.head + 1 < s.tail)
    && PcOk(s, w, s.subs[th.index], th.pc)
  }

  ghost predicate Inv(s: State) {
    SharedOk(s) && forall t {:trigger s.threads[t]} :: 0 <= t < |s.threads| ==> ThreadOk(s, s.threads[t])
  }

  /** Shared memory only moves forward: a descriptor moves on node and count at once, and the tail
      stays where it is as long as any node is pending. */
  ghost predicate SubForward(x: Sub, y: Sub) {
    && x.list <= y.list && x.put.node <= y.put.node && x.put.count <= y.put.count
    && (x.put.node == y.put.node ==> x.put == y.put)
  }

  ghost predicate NonePending(s: State) {
    forall i :: 0 <= i < |s.subs| ==> |s.subs[i].list| == s.subs[i].put.node + 1
  }

  ghost predicate Forward(s: State, s1: State) {
    && s1.maxWidth == s.maxWidth && |s1.subs| == |s.subs| && |s1.threads| == |s.threads|
    && s.wins <= s1.wins && s.tail <= s1.tail < |s1.wins| && s.head <= s1.head
    && (forall i {:trigger s1.subs[i]} :: 0 <= i < |s.subs| ==> SubForward(s.subs[i], s1.subs[i]))
    && (s1.tail != s.tail ==> NonePending(s))
  }

  lemma PcStable(s: State, s1: State, th: Thread)
    requires ThreadOk(s, th) && Forward(s, s1)
    ensures PcOk(s1, s1.wins[th.win], s1.subs[th.index], th.pc)
  {
    assert SubForward(s.subs[th.index], s1.subs[th.index]);
  }

  /** So what one thread knows, no step of another can make wrong. */
  lemma Stable(s: State, s1: State, th: Thread)
    requires ThreadOk(s, th) && Forward(s, s1)
    ensures ThreadOk(s1, th)
  {
    PcStable(s, s1, th);
    var w := s.wins[th.win].width;
    if Searching(th.pc) {
      forall i: nat | i < w && Passed(Start(w, th.index, th.hops), th.hops, w, i) ensures Full(s1, th.win, i) {
        assert Full(s, th.win, i) && SubForward(s.subs[i], s1.subs[i]);
      }
    }
    if Shifting(th.pc) {
      forall i | 0 <= i < w ensures Full(s1, th.win, i) {
        assert Full(s, th.win, i) && SubForward(s.subs[i], s1.subs[i]);
      }
    }
  }

  ghost predicate Kept(s: State, s1: State) { Inv(s1) && Forward(s, s1) }

  lemma Moved(s: State, s1: State, t: nat, th: Thread)
    requires Inv(s) && t < |s.threads| && s1.threads == s.threads && Forward(s, s1) && SharedOk(s1) && ThreadOk(s1, th)
    ensures Kept(s, s1.At(t, th))
  {
    var s2 := s1.At(t, th);
    assert forall i :: 0 <= i < |s.subs| ==> s2.subs[i] == s1.subs[i] && SubForward(s.subs[i], s1.subs[i]);
    forall i | 0 <= i < s2.maxWidth
      ensures SubOk(s2.wins, s2.tail, i, s2.subs[i])
    {
      assert SubOk(s1.wins, s1.tail, i, s1.subs[i]);
    }
    forall u | 0 <= u < |s2.threads| ensures ThreadOk(s2, s2.threads[u]) {
      if u != t { Stable(s, s1, s.threads[u]); }
      Stable(s1, s2, s2.threads[u]);
    }
  }

  // ---------------------------------------------------------------------------------------------
  // Reads

  lemma HopPasses(s: State, th: Thread, r: nat)
    requires ThreadOk(s, th) && th.pc.PutCheck? && th.hops < s.wins[th.win].width && Full(s, th.win, th.index)
    ensures var th1 := th.Hop(s.wins[th.win].width, r); th1.index < s.wins[th.win].width && PassedFull(s, th1)
  {
    var w := s.wins[th.win].width;
    var th1 := th.Hop(w, r);
    forall i: nat | i < w && Passed(Start(w, th1.index, th1.hops), th1.hops, w, i) ensures Full(s, th.win, i) {
      if th.random == RANDOM_HOPS && i != th.index {
        assert Passed(Start(w, th.index, th.hops), th.hops, w, i);
      }
    }
  }

  /** After as many hops in order as the window is wide, the whole window has been seen full. */
  lemma PassFull(s: State, th: Thread)
    requires ThreadOk(s, th) && th.pc.PutCheck? && th.hops == s.wins[th.win].width
    ensures AllFull(s, th.win)
  {
    var w := s.wins[th.win].width;
    PassComplete(w, th.index);
    forall i | 0 <= i < w ensures Full(s, th.win, i) {
      assert Passed(Start(w, th.index, th.hops), th.hops, w, i);
    }
  }

  lemma LookCheckOk(s: State, th: Thread, r: nat, nodeFirst: bool)
    requires LateralOk(s) && ThreadOk(s, th) && th.pc.PutCheck?
    ensures ThreadOk(s, Look(s, th, r, nodeFirst))
  {
    if s.tail == th.win && th.pc.count >= s.wins[th.win].max {
      if th.hops < s.wins[th.win].width { HopPasses(s, th, r); } else { PassFull(s, th); }
    }
  }

  lemma LookPutOk(s: State, th: Thread, r: nat, nodeFirst: bool)
    requires LateralOk(s) && ThreadOk(s, th)
    requires th.pc.PutEnter? || th.pc.PutRead? || th.pc.PutReadNode? || th.pc.PutReadCount? || th.pc.PutResync?
    ensures ThreadOk(s, Look(s, th, r, nodeFirst))
  {
    if th.pc.PutRead? || th.pc.PutReadNode? || th.pc.PutReadCount? {
      assert PassedFull(s, Look(s, th, r, nodeFirst));
    }
  }

  lemma LookShiftOk(s: State, th: Thread, r: nat, nodeFirst: bool)
    requires LateralOk(s) && ThreadOk(s, th) && Shifting(th.pc) && !th.pc.ShiftLink? && !th.pc.ShiftMove?
    ensures ThreadOk(s, Look(s, th, r, nodeFirst))
  {
  }

  lemma LookEnqOk(s: State, th: Thread, r: nat, nodeFirst: bool)
    requires LateralOk(s) && ThreadOk(s, th) && (th.pc.EnqRecheck? || th.pc.EnqNext?)
    ensures ThreadOk(s, Look(s, th, r, nodeFirst))
  {
  }

  lemma LoadOk(s: State, th: Thread, r: nat, nodeFirst: bool)
    requires LateralOk(s) && ThreadOk(s, th) && th.pc.GetLoad?
    ensures ThreadOk(s, LookGet(s, th, r, nodeFirst))
  {
    assert r % s.wins[th.head + 1].width < s.wins[th.head + 1].width;
  }

  lemma ReloadOk(s: State, th: Thread, r: nat, nodeFirst: bool)
    requires LateralOk(s) && ThreadOk(s, th) && (th.pc.GetEnter? || th.pc.HeadReload?)
    ensures ThreadOk(s, LookGet(s, th, r, nodeFirst))
  {
  }

  lemma ReadOk(s: State, th: Thread, r: nat, nodeFirst: bool)
    requires LateralOk(s) && ThreadOk(s, th)
    requires th.pc.GetRead? || th.pc.GetReadNode? || th.pc.GetReadCount? || th.pc.GetReadPut?
    ensures ThreadOk(s, LookGet(s, th, r, nodeFirst))
  {
  }

  lemma GetCheckOk(s: State, th: Thread, r: nat, nodeFirst: bool)
    requires LateralOk(s) && ThreadOk(s, th)
    requires th.pc.GetCheck?
    ensures ThreadOk(s, LookGet(s, th, r, nodeFirst))
  {
  }

  lemma GetShiftOk(s: State, th: Thread, r: nat, nodeFirst: bool)
    requires LateralOk(s) && ThreadOk(s, th)
    requires th.pc.GetShift?
    ensures ThreadOk(s, LookGet(s, th, r, nodeFirst))
  {
  }

  lemma TailReadOk(s: State, th: Thread, nodeFirst: bool)
    requires LateralOk(s) && ThreadOk(s, th)
    requires th.pc.DeqTail? || th.pc.DeqTailNode? || th.pc.DeqTailCount?
    ensures ThreadOk(s, LookDeq(s, th, nodeFirst))
  {
  }

  lemma NextReadOk(s: State, th: Thread, nodeFirst: bool)
    requires LateralOk(s) && ThreadOk(s, th)
    requires th.pc.DeqNext? || th.pc.DeqSafe? || th.pc.DeqWindow?
    ensures ThreadOk(s, LookDeq(s, th, nodeFirst))
  {
  }

  lemma LookGetOk(s: State, th: Thread, r: nat, nodeFirst: bool)
    requires LateralOk(s) && ThreadOk(s, th) && Dequeuing(th.pc) && !th.pc.HeadMove? && !th.pc.DeqHelp?
    requires !th.pc.DeqSwing?
    ensures ThreadOk(s, LookGet(s, th, r, nodeFirst))
  {
    var pc := th.pc;
    if pc.GetLoad? { LoadOk(s, th, r, nodeFirst); }
    else if pc.GetEnter? || pc.HeadReload? { ReloadOk(s, th, r, nodeFirst); }
    else if pc.GetCheck? { GetCheckOk(s, th, r, nodeFirst); }
    else if pc.GetShift? { GetShiftOk(s, th, r, nodeFirst); }
    else if pc.DeqTail? || pc.DeqTailNode? || pc.DeqTailCount? { TailReadOk(s, th, nodeFirst); }
    else if pc.DeqNext? || pc.DeqSafe? || pc.DeqWindow? { NextReadOk(s, th, nodeFirst); }
    else { ReadOk(s, th, r, nodeFirst); }
  }

  lemma LookOk(s: State, t: nat, r: nat, nodeFirst: bool)
    requires Inv(s) && t < |s.threads|
    ensures ThreadOk(s, Look(s, s.threads[t], r, nodeFirst))
  {
    var th := s.threads[t];
    assert ThreadOk(s, th);
    var pc := th.pc;
    if pc.PutCheck? { LookCheckOk(s, th, r, nodeFirst); }
    else if Searching(pc) || pc.PutEnter? || pc.PutResync? { LookPutOk(s, th, r, nodeFirst); }
    else if pc.ShiftLink? || pc.ShiftMove? { }
    else if Shifting(pc) { LookShiftOk(s, th, r, nodeFirst); }
    else if pc.EnqRecheck? || pc.EnqNext? { LookEnqOk(s, th, r, nodeFirst); }
    else if Dequeuing(pc) && !pc.HeadMove? && !pc.DeqHelp? && !pc.DeqSwing? { LookGetOk(s, th, r, nodeFirst); }
  }

  // ---------------------------------------------------------------------------------------------
  // Writes to sub-queues

  /** A node is only ever linked, helped or confirmed in a window that is the tail: every earlier
      window of the sub-queue was filled before the lateral moved on. */
  lemma RoomIsTop(s: State, th: Thread, node: nat)
    requires ThreadOk(s, th) && SubOk(s.wins, s.tail, th.index, s.subs[th.index]) && Enqueuing(th.pc)
    requires Room(s.wins[th.win], s.subs[th.index], node) && s.subs[th.index].put.node == node
    ensures th.win == s.tail
  {
    assert th.win < s.tail ==> Filled(s.wins, th.index, s.subs[th.index], th.win);
  }

  /** The rows between two counts belong to windows the sub-queue has no part in. */
  lemma NoHomeBetween(wins: seq<Win>, maxWidth: Width, tail: nat, i: nat, x: Sub, r: nat)
    requires Lateral(wins, maxWidth) && SubOk(wins, tail, i, x) && tail > 0 && Pending(x)
    requires x.put.count < r < NextRow(wins[tail], x.put.count)
    ensures !Home(wins, i, r)
  {
    forall k: nat ensures !HomeIn(wins, i, r, k) {
      assert 0 < k < tail ==> Filled(wins, i, x, k);
      assert tail < k < |wins| ==> Above(wins, tail, k);
    }
  }

  /** Giving the pending node its gap-closed row keeps the rows complete. */
  lemma RowGiven(wins: seq<Win>, maxWidth: Width, tail: nat, i: nat, x: Sub)
    requires Lateral(wins, maxWidth) && SubOk(wins, tail, i, x) && tail > 0 && Pending(x)
    ensures var row := NextRow(wins[tail], x.put.count);
            Bottom(wins[tail]) < row <= wins[tail].max && x.put.count < row && RowsOk(wins, i, Confirmed(x, row))
  {
    var row := NextRow(wins[tail], x.put.count);
    var y := Confirmed(x, row);
    assert HomeIn(wins, i, row, tail);
    forall a | 0 <= a < |x.rows| ensures x.rows[a] < row {
      assert a < x.put.node ==> x.rows[a] < x.rows[x.put.node];
    }
    forall r: nat {:trigger Home(wins, i, r)} | r > 0 ensures r in y.rows <==> r <= row && Home(wins, i, r) {
      assert r in y.rows <==> r in x.rows || r == row;
      if x.put.count < r < row { NoHomeBetween(wins, maxWidth, tail, i, x, r); }
    }
  }

  lemma ConfirmedOk(wins: seq<Win>, maxWidth: Width, tail: nat, i: nat, x: Sub)
    requires Lateral(wins, maxWidth) && SubOk(wins, tail, i, x) && tail > 0 && Pending(x)
    ensures var y := Confirmed(x, NextRow(wins[tail], x.put.count)); SubOk(wins, tail, i, y) && SubForward(x, y)
  {
    RowGiven(wins, maxWidth, tail, i, x);
    var y := Confirmed(x, NextRow(wins[tail], x.put.count));
    forall k | 0 < k < tail ensures Filled(wins, i, y, k) { assert Filled(wins, i, x, k); }
  }

  lemma SubChanged(s: State, i: nat, y: Sub)
    requires SharedOk(s) && i < s.maxWidth && SubOk(s.wins, s.tail, i, y) && SubForward(s.subs[i], y)
    ensures SharedOk(s.SetSub(i, y)) && Forward(s, s.SetSub(i, y))
  {
    var s1 := s.SetSub(i, y);
    forall j | 0 <= j < s1.maxWidth
      ensures SubOk(s1.wins, s1.tail, j, s1.subs[j])
    {
      assert SubOk(s.wins, s.tail, j, s.subs[j]);
    }
  }

  ghost predicate Rest(pc: Pc) { pc.Idle? || pc.PutEnter? || pc.GetLoad? }

  lemma Rested(s: State, s1: State, th: Thread, contention: bool, pc: Pc)
    requires ThreadOk(s, th) && Forward(s, s1) && Rest(pc) && (pc.GetLoad? ==> Dequeuing(th.pc))
    ensures ThreadOk(s1, th.(contention := contention).To(pc))
  {
  }

  lemma Retried(s: State, t: nat, pc: Pc)
    requires Inv(s) && t < |s.threads| && Rest(pc) && (pc.GetLoad? ==> Dequeuing(s.threads[t].pc))
    ensures Kept(s, s.At(t, s.threads[t].(contention := true).To(pc)))
  {
    assert ThreadOk(s, s.threads[t]);
    Rested(s, s, s.threads[t], true, pc);
    Moved(s, s, t, s.threads[t].(contention := true).To(pc));
  }

  /** A torn descriptor makes the CAS fail; and when it succeeds, the window the row was computed
      from is the tail, whoever computed it. */
  lemma SwapPutOk(s: State, t: nat, win: nat, node: nat, count: nat, pc: Pc)
    requires Inv(s) && t < |s.threads| && Rest(pc) && win <= s.tail && (pc.GetLoad? ==> Dequeuing(s.threads[t].pc))
    requires s.threads[t].index < s.maxWidth
    requires var x := s.subs[s.threads[t].index]; node + 1 < |x.list| && (x.put.node == node ==> win == s.tail)
    ensures Kept(s, SwapPut(s, t, win, node, count, pc))
  {
    var th := s.threads[t];
    var x := s.subs[th.index];
    assert ThreadOk(s, th) && SubOk(s.wins, s.tail, th.index, x);
    if x.put == Desc(node, count) {
      var y := Confirmed(x, NextRow(s.wins[win], count));
      ConfirmedOk(s.wins, s.maxWidth, s.tail, th.index, x);
      SubChanged(s, th.index, y);
      var s1 := s.SetSub(th.index, y);
      Rested(s, s1, th, th.contention, pc);
      Moved(s, s1, t, th.To(pc));
    } else {
      Retried(s, t, pc);
    }
  }

  ghost predicate Swapping(pc: Pc) { pc.EnqHelp? || pc.EnqConfirm? || pc.DeqHelp? }

  /** The window a thread about to confirm computes the row from. */
  function RowWindow(th: Thread): nat { if th.pc.DeqHelp? then th.pc.top else th.win }

  lemma SwapReady(s: State, t: nat)
    requires Inv(s) && t < |s.threads| && Swapping(s.threads[t].pc)
    ensures var th := s.threads[t];
            th.index < |s.subs| && RowWindow(th) <= s.tail && var x := s.subs[th.index];
            th.pc.node + 1 < |x.list| && (x.put.node == th.pc.node ==> RowWindow(th) == s.tail)
  {
    var th := s.threads[t];
    assert ThreadOk(s, th) && SubOk(s.wins, s.tail, th.index, s.subs[th.index]);
    if !th.pc.DeqHelp? && s.subs[th.index].put.node == th.pc.node { RoomIsTop(s, th, th.pc.node); }
  }

  lemma SwapStepOk(s: State, t: nat)
    requires Inv(s) && t < |s.threads| && Swapping(s.threads[t].pc)
    ensures var th := s.threads[t];
            var pc := if th.pc.EnqHelp? then PutEnter(th.pc.v) else if th.pc.DeqHelp? then GetLoad else Idle;
            th.index < |s.subs| && RowWindow(th) < |s.wins| &&
                Kept(s, SwapPut(s, t, RowWindow(th), th.pc.node, th.pc.count, pc))
  {
    SwapReady(s, t);
    var th := s.threads[t];
    assert ThreadOk(s, th);
    var pc := if th.pc.EnqHelp? then PutEnter(th.pc.v) else if th.pc.DeqHelp? then GetLoad else Idle;
    SwapPutOk(s, t, RowWindow(th), th.pc.node, th.pc.count, pc);
  }

  lemma NodeLinked(s: State, th: Thread, v: int)
    requires SharedOk(s) && ThreadOk(s, th) && th.pc.EnqLink? && th.pc.node == |s.subs[th.index].list| - 1
    ensures var x := s.subs[th.index];
            var s1 := s.SetSub(th.index, x.(list := x.list + [v]));
            SharedOk(s1) && Forward(s, s1) && ThreadOk(s1, th.To(EnqConfirm(th.pc.node, th.pc.count)))
  {
    var x := s.subs[th.index];
    assert SubOk(s.wins, s.tail, th.index, x);
    RoomIsTop(s, th, th.pc.node);
    var y := x.(list := x.list + [v]);
    assert RowsOk(s.wins, th.index, y);
    forall k | 0 < k < s.tail ensures Filled(s.wins, th.index, y, k) { assert Filled(s.wins, th.index, x, k); }
    SubChanged(s, th.index, y);
  }

  lemma LinkOk(s: State, t: nat)
    requires Inv(s) && t < |s.threads| && s.threads[t].pc.EnqLink?
    ensures var th := s.threads[t];
            th.index < |s.subs| && Kept(s, LinkNode(s, t, th.pc.v, th.pc.node, th.pc.count))
  {
    var th := s.threads[t];
    var x := s.subs[th.index];
    assert ThreadOk(s, th);
    var EnqLink(v, node, count) := th.pc;
    if node == |x.list| - 1 {
      NodeLinked(s, th, v);
      Moved(s, s.SetSub(th.index, x.(list := x.list + [v])), t, th.To(EnqConfirm(node, count)));
    } else {
      Retried(s, t, PutEnter(v));
    }
  }

  lemma Swung(s: State, th: Thread)
    requires SharedOk(s) && ThreadOk(s, th) && th.pc.DeqSwing?
    ensures var x := s.subs[th.index];
            var y := x.(get := Desc(th.pc.head + 1, NextRow(s.wins[th.head + 1], th.pc.count)));
            SharedOk(s.SetSub(th.index, y)) && Forward(s, s.SetSub(th.index, y))
  {
    var x := s.subs[th.index];
    var y := x.(get := Desc(th.pc.head + 1, NextRow(s.wins[th.head + 1], th.pc.count)));
    assert SubOk(s.wins, s.tail, th.index, x);
    assert RowsOk(s.wins, th.index, y);
    forall k | 0 < k < s.tail ensures Filled(s.wins, th.index, y, k) { assert Filled(s.wins, th.index, x, k); }
    SubChanged(s, th.index, y);
  }

  lemma SwingOk(s: State, t: nat)
    requires Inv(s) && t < |s.threads| && s.threads[t].pc.DeqSwing?
    ensures var th := s.threads[t];
            && th.index < |s.subs| && th.head + 1 < |s.wins|
            && Kept(s, SwapGet(s, t, th.pc.head, th.pc.count, th.pc.next).0)
  {
    var th := s.threads[t];
    var x := s.subs[th.index];
    assert ThreadOk(s, th);
    var DeqSwing(head, count, next) := th.pc;
    if x.get != Desc(head, count) {
      Retried(s, t, GetLoad);
    } else if next {
      var y := x.(get := Desc(head + 1, NextRow(s.wins[th.head + 1], count)));
      Swung(s, th);
      Rested(s, s.SetSub(th.index, y), th, th.contention, Idle);
      Moved(s, s.SetSub(th.index, y), t, th.To(Idle));
    } else {
      CrashKeeps(s);
    }
  }

  lemma CrashKeeps(s: State)
    requires Inv(s)
    ensures Kept(s, s.(crashed := true))
  {
    var s1 := s.(crashed := true);
    forall i | 0 <= i < s1.maxWidth
      ensures SubOk(s1.wins, s1.tail, i, s1.subs[i])
    {
      assert SubOk(s.wins, s.tail, i, s.subs[i]);
    }
    forall u | 0 <= u < |s1.threads| ensures ThreadOk(s1, s1.threads[u]) { Stable(s, s1, s.threads[u]); }
  }

  // ---------------------------------------------------------------------------------------------
  // Writes to the lateral

  lemma RowsKept(wins: seq<Win>, w: Win, maxWidth: Width, i: nat, x: Sub)
    requires Lateral(wins, maxWidth) && RowsOk(wins, i, x) && Adjacent(wins[|wins| - 1], w)
    requires x.put.count <= wins[|wins| - 1].max
    ensures RowsOk(wins + [w], i, x)
  {
    var wins1 := wins + [w];
    forall r: nat {:trigger Home(wins1, i, r)} | r > 0 ensures r in x.rows <==> r <= x.put.count && Home(wins1, i, r) {
      if Home(wins, i, r) {
        var k :| HomeIn(wins, i, r, k);
        assert HomeIn(wins1, i, r, k);
      }
      if Home(wins1, i, r) && r <= x.put.count {
        var k :| HomeIn(wins1, i, r, k);
        assert HomeIn(wins, i, r, k);
      }
    }
  }

  lemma SubKeptByLink(wins: seq<Win>, w: Win, maxWidth: Width, tail: nat, i: nat, x: Sub)
    requires Lateral(wins, maxWidth) && SubOk(wins, tail, i, x) && Adjacent(wins[|wins| - 1], w) && tail == |wins| - 1
    ensures SubOk(wins + [w], tail, i, x)
  {
    RowsKept(wins, w, maxWidth, i, x);
    forall k | 0 < k < tail ensures Filled(wins + [w], i, x, k) { assert Filled(wins, i, x, k); }
  }

  lemma LateralLinked(s: State, w: Win)
    requires SharedOk(s) && s.tail + 1 == |s.wins| && Adjacent(s.wins[s.tail], w) && 1 <= w.width <= s.maxWidth
    ensures var s1 := s.(wins := s.wins + [w]); SharedOk(s1) && Forward(s, s1)
  {
    var s1 := s.(wins := s.wins + [w]);
    LateralGrows(s.wins, w, s.maxWidth);
    forall i | 0 <= i < s.maxWidth ensures SubOk(s1.wins, s1.tail, i, s1.subs[i]) {
      assert SubOk(s.wins, s.tail, i, s.subs[i]);
      SubKeptByLink(s.wins, w, s.maxWidth, s.tail, i, s.subs[i]);
    }
  }

  lemma WindowLinkOk(s: State, t: nat)
    requires Inv(s) && t < |s.threads| && s.threads[t].pc.ShiftLink?
    ensures var th := s.threads[t];
            && th.win < |s.wins|
            && Kept(s, LinkWindow(s, th, th.pc.depth, th.pc.width).At(t, th.To(ShiftReread(th.pc.v))))
  {
    var th := s.threads[t];
    assert ThreadOk(s, th);
    var ShiftLink(v, depth, width) := th.pc;
    if |s.wins| == th.win + 1 { LateralLinked(s, Win(s.wins[th.win].max + depth, width, depth)); }
    var s1 := LinkWindow(s, th, depth, width);
    WindowLinked(s, s1, th, v);
    Moved(s, s1, t, th.To(ShiftReread(v)));
  }

  lemma WindowLinked(s: State, s1: State, th: Thread, v: int)
    requires ThreadOk(s, th) && Forward(s, s1) && th.pc.ShiftLink? && th.win + 1 < |s1.wins|
    ensures ThreadOk(s1, th.To(ShiftReread(v)))
  {
    Stable(s, s1, th);
  }

  lemma SubKeptByMove(s: State, i: nat, x: Sub)
    requires LateralOk(s) && s.tail + 1 < |s.wins| && SubOk(s.wins, s.tail, i, x)
    requires i < s.wins[s.tail].width ==> s.wins[s.tail].max <= x.put.count
    ensures SubOk(s.wins, s.tail + 1, i, x) && !Pending(x)
  {
    assert Above(s.wins, s.tail, s.tail + 1);
    forall k | 0 < k < s.tail + 1 ensures Filled(s.wins, i, x, k) {
      if k < s.tail { assert Filled(s.wins, i, x, k); }
    }
  }

  lemma TailMoved(s: State, th: Thread)
    requires SharedOk(s) && ThreadOk(s, th) && th.pc.ShiftMove?
    ensures SharedOk(MoveTail(s, th)) && Forward(s, MoveTail(s, th))
  {
    var s1 := MoveTail(s, th);
    if s.tail == th.win {
      forall i | 0 <= i < s.maxWidth ensures SubOk(s1.wins, s1.tail, i, s1.subs[i]) && !Pending(s.subs[i]) {
        assert SubOk(s.wins, s.tail, i, s.subs[i]);
        assert i < s.wins[s.tail].width ==> Full(s, s.tail, i);
        SubKeptByMove(s, i, s.subs[i]);
      }
    }
  }

  lemma Resyncs(s: State, s1: State, th: Thread, v: int)
    requires ThreadOk(s, th) && Forward(s, s1)
    ensures ThreadOk(s1, th.To(PutResync(v)))
  {
  }

  /** The tail moves on only when every sub-queue of its window is full, so none has a node pending. */
  lemma WindowMoveOk(s: State, t: nat)
    requires Inv(s) && t < |s.threads| && s.threads[t].pc.ShiftMove?
    ensures var th := s.threads[t]; Kept(s, MoveTail(s, th).At(t, th.To(PutResync(th.pc.v))))
  {
    var th := s.threads[t];
    assert ThreadOk(s, th);
    TailMoved(s, th);
    Resyncs(s, MoveTail(s, th), th, th.pc.v);
    Moved(s, MoveTail(s, th), t, th.To(PutResync(th.pc.v)));
  }

  /** Nothing in the sub-queues depends on the head, or on the width and depth of future windows. */
  lemma Unrelated(s: State, head: nat, width: nat, depth: nat)
    requires SharedOk(s) && s.head <= head < s.tail && 1 <= width <= s.maxWidth && depth >= 1
    ensures var s1 := s.(head := head, width := width, depth := depth); SharedOk(s1) && Forward(s, s1)
  {
    var s1 := s.(head := head, width := width, depth := depth);
    forall i | 0 <= i < s.maxWidth
      ensures SubOk(s1.wins, s1.tail, i, s1.subs[i])
    {
      assert SubOk(s.wins, s.tail, i, s.subs[i]);
    }
  }

  lemma HeadMoveOk(s: State, t: nat)
    requires Inv(s) && t < |s.threads| && s.threads[t].pc.HeadMove?
    ensures var th := s.threads[t]; Kept(s, MoveHead(s, th).At(t, th.To(HeadReload)))
  {
    var th := s.threads[t];
    assert ThreadOk(s, th);
    var s1 := MoveHead(s, th);
    Unrelated(s, s1.head, s.width, s.depth);
    HeadReloads(s, s1, th);
    Moved(s, s1, t, th.To(HeadReload));
  }

  lemma HeadReloads(s: State, s1: State, th: Thread)
    requires ThreadOk(s, th) && Forward(s, s1) && th.pc.HeadMove?
    ensures ThreadOk(s1, th.To(HeadReload))
  {
  }

  lemma UpdateOk(s: State, t: nat, act: Action)
    requires Inv(s) && Enabled(s, t, act) && (act.UpdateWidth? || act.UpdateDepth?)
    ensures Kept(s, Step(s, t, act).0)
  {
    var s1 := Step(s, t, act).0;
    Unrelated(s, s.head, s1.width, s1.depth);
    Moved(s, s1, t, s.threads[t]) by { Stable(s, s1, s.threads[t]); }
    assert s1.threads[t := s.threads[t]] == s1.threads;
  }

  lemma CallOk(s: State, t: nat, act: Action)
    requires Inv(s) && Enabled(s, t, act) && (act.CallEnqueue? || act.CallDequeue?)
    ensures Kept(s, Step(s, t, act).0)
  {
    assert ThreadOk(s, s.threads[t]);
    Moved(s, s, t, Step(s, t, act).0.threads[t]);
  }

  lemma LookStepOk(s: State, t: nat, act: Action)
    requires Inv(s) && Enabled(s, t, act) && act.Go?
    requires Step(s, t, act).0 == s.At(t, Look(s, s.threads[t], act.r, act.nodeFirst))
    ensures Kept(s, Step(s, t, act).0)
  {
    LookOk(s, t, act.r, act.nodeFirst);
    Moved(s, s, t, Look(s, s.threads[t], act.r, act.nodeFirst));
  }

  lemma LateralStepOk(s: State, t: nat, act: Action)
    requires Inv(s) && Enabled(s, t, act) && act.Go?
    requires var pc := s.threads[t].pc; pc.ShiftLink? || pc.ShiftMove? || pc.HeadMove?
    ensures Kept(s, Step(s, t, act).0)
  {
    var pc := s.threads[t].pc;
    if pc.ShiftLink? { WindowLinkOk(s, t); } else if pc.ShiftMove? { WindowMoveOk(s, t); } else { HeadMoveOk(s, t); }
  }

  lemma SwapsOk(s: State, t: nat, act: Action)
    requires Inv(s) && Enabled(s, t, act) && act.Go? && Swapping(s.threads[t].pc)
    ensures Kept(s, Step(s, t, act).0)
  {
    SwapStepOk(s, t);
  }

  lemma SubStepOk(s: State, t: nat, act: Action)
    requires Inv(s) && Enabled(s, t, act) && act.Go? && (s.threads[t].pc.EnqLink? || s.threads[t].pc.DeqSwing?)
    ensures Kept(s, Step(s, t, act).0)
  {
    if s.threads[t].pc.EnqLink? { LinkOk(s, t); } else { SwingOk(s, t); }
  }

  /** The steps that change shared memory. */
  ghost predicate Writing(pc: Pc) {
    pc.ShiftLink? || pc.ShiftMove? || pc.HeadMove? || Swapping(pc) || pc.EnqLink? || pc.DeqSwing?
  }

  lemma ReadStepOk(s: State, t: nat, act: Action)
    requires Inv(s) && Enabled(s, t, act) && act.Go? && !Writing(s.threads[t].pc)
    ensures Kept(s, Step(s, t, act).0)
  {
    LookStepOk(s, t, act);
  }

  /** Every step of every thread keeps the invariant and only moves shared memory forward. */
  lemma StepKeeps(s: State, t: nat, act: Action)
    requires Inv(s) && Enabled(s, t, act)
    ensures Kept(s, Step(s, t, act).0)
  {
    var pc := s.threads[t].pc;
    if !act.Go? { if act.UpdateWidth? || act.UpdateDepth? { UpdateOk(s, t, act); } else { CallOk(s, t, act); } }
    else if !Writing(pc) { ReadStepOk(s, t, act); }
    else if Swapping(pc) { SwapsOk(s, t, act); }
    else if pc.EnqLink? || pc.DeqSwing? { SubStepOk(s, t, act); }
    else { LateralStepOk(s, t, act); }
  }

  /** Every place a thread names exists, so each of its next accesses is possible. */
  lemma AllNamed(s: State, t: nat)
    requires Inv(s) && t < |s.threads|
    ensures Named(s, s.threads[t])
  {
    assert ThreadOk(s, s.threads[t]);
  }

  // ---------------------------------------------------------------------------------------------
  // What the put side promises

  /** Whoever confirms a node - its owner, another enqueuer or a dequeuer - it gets the row above the
      sub-queue's last one with gaps closed at the bottom of the tail window, and that row is within
      the window. */
  lemma SameRow(s: State, t: nat, act: Action, i: nat)
    requires Inv(s) && Enabled(s, t, act) && i < s.maxWidth
    ensures var s1 := Step(s, t, act).0;
            |s1.subs| == s.maxWidth && (s1.subs[i].put != s.subs[i].put ==>
            var row := NextRow(s.wins[s.tail], s.subs[i].put.count);
            && Pending(s.subs[i]) && i < s.wins[s.tail].width && row <= s.wins[s.tail].max
            && s1.subs[i].put == Desc(s.subs[i].put.node + 1, row) && s1.subs[i].rows == s.subs[i].rows + [row]
            && s1.subs[i].list == s.subs[i].list)
  {
    var s1 := Step(s, t, act).0;
    StepKeeps(s, t, act);
    var x := s.subs[i];
    assert SubOk(s.wins, s.tail, i, x);
    if act.Go? && Swapping(s.threads[t].pc) {
      SwapReady(s, t);
      if s1.subs[i].put != x.put {
        assert i == s.threads[t].index;
        RowGiven(s.wins, s.maxWidth, s.tail, i, x);
      }
    }
  }

  /** While a node is pending the row it will get is settled: the tail does not move and nobody else
      links to its sub-queue. */
  lemma PendingSettled(s: State, t: nat, act: Action, i: nat)
    requires Inv(s) && Enabled(s, t, act) && i < s.maxWidth && Pending(s.subs[i])
    ensures var s1 := Step(s, t, act).0;
            && s1.tail == s.tail && s1.wins[..|s.wins|] == s.wins
            && |s1.subs| == s.maxWidth && s1.subs[i].list == s.subs[i].list
            && (s1.subs[i].put == s.subs[i].put || s1.subs[i].put.node == s.subs[i].put.node + 1)
  {
    StepKeeps(s, t, act);
    SameRow(s, t, act, i);
    assert SubOk(s.wins, s.tail, i, s.subs[i]) && ThreadOk(s, s.threads[t]);
    assert SubForward(s.subs[i], Step(s, t, act).0.subs[i]);
  }

  /** Sub-queue i has a confirmed node in every row of window w. */
  ghost predicate EveryRow(w: Win, x: Sub) {
    forall r: nat :: Bottom(w) < r <= w.max ==> r in x.rows
  }

  /** When the tail moves on, each index below its window's width has a confirmed item in every row
      of the window, nothing is pending anywhere, and the next window begins where this one ends. */
  lemma TailMoves(s: State, t: nat, act: Action)
    requires Inv(s) && Enabled(s, t, act) && Step(s, t, act).0.tail != s.tail
    ensures var s1 := Step(s, t, act).0;
             s1.tail == s.tail + 1 < |s1.wins| && Adjacent(s1.wins[s.tail], s1.wins[s1.tail])
    ensures forall i :: 0 <= i < s.wins[s.tail].width ==> i < |s.subs| && EveryRow(s.wins[s.tail], s.subs[i])
    ensures forall i :: 0 <= i < s.maxWidth ==> !Pending(s.subs[i])
  {
    var s1 := Step(s, t, act).0;
    StepKeeps(s, t, act);
    var th := s.threads[t];
    assert ThreadOk(s, th);
    assert Adjacent(s1.wins[s.tail], s1.wins[s.tail + 1]);
    forall i | 0 <= i < s.wins[s.tail].width ensures i < |s.subs| && EveryRow(s.wins[s.tail], s.subs[i]) {
      assert Full(s, s.tail, i) && SubOk(s.wins, s.tail, i, s.subs[i]);
      forall r: nat | Bottom(s.wins[s.tail]) < r <= s.wins[s.tail].max ensures r in s.subs[i].rows {
        assert HomeIn(s.wins, i, r, s.tail);
        assert Home(s.wins, i, r);
      }
    }
  }

  /** The three asserted next pointers are never NULL, and the branch for an empty lateral is dead:
      whatever a thread knows as its head pointer, its get window exists, and it has a successor
      whenever it was seen not to be the tail. */
  lemma NextExists(s: State, t: nat)
    requires Inv(s) && t < |s.threads|
    ensures var th := s.threads[t];
            && s.head + 1 < |s.wins| && th.head + 1 < |s.wins|
            && (th.head + 1 != s.tail ==> th.head + 2 < |s.wins|)
            && (th.pc.HeadMove? ==> th.head + 2 < |s.wins|)
  {
    assert ThreadOk(s, s.threads[t]);
  }

  // ---------------------------------------------------------------------------------------------
  // What holds over whole runs

  ghost predicate Next(s: State, s1: State) {
    exists t, act :: Enabled(s, t, act) && Step(s, t, act).0 == s1
  }

  ghost predicate IsRun(maxWidth: Width, width: nat, depth: nat, n: nat, run: seq<State>) {
    && |run| >= 1 && run[0] == Init(maxWidth, width, depth, n)
    && forall i {:trigger Next(run[i], run[i + 1])} :: 0 <= i < |run| - 1 ==> Next(run[i], run[i + 1])
  }

  lemma InitOk(maxWidth: Width, width: nat, depth: nat, n: nat)
    requires 1 <= width <= maxWidth && depth >= 1
    ensures Inv(Init(maxWidth, width, depth, n))
  {
    var s := Init(maxWidth, width, depth, n);
    assert Adjacent(s.wins[0], s.wins[1]) && Above(s.wins, 0, 1);
    forall i | 0 <= i < maxWidth ensures SubOk(s.wins, s.tail, i, s.subs[i]) {
      forall r: nat {:trigger Home(s.wins, i, r)} | r > 0
        ensures r in s.subs[i].rows <==> r <= 0 && Home(s.wins, i, r)
      {
      }
    }
  }

  lemma NextKeeps(s: State, s1: State)
    requires Inv(s) && Next(s, s1)
    ensures Inv(s1) && s1.maxWidth == s.maxWidth
  {
    var t, act :| Enabled(s, t, act) && Step(s, t, act).0 == s1;
    StepKeeps(s, t, act);
  }

  lemma {:induction false} Reachable(maxWidth: Width, width: nat, depth: nat, n: nat, run: seq<State>)
    requires IsRun(maxWidth, width, depth, n, run) && 1 <= width <= maxWidth && depth >= 1
    ensures var s := run[|run| - 1]; Inv(s) && s.maxWidth == maxWidth
    decreases |run|
  {
    InitOk(maxWidth, width, depth, n);
    if |run| > 1 {
      var k := |run| - 2;
      var before := run[..k + 1];
      forall i {:trigger Next(before[i], before[i + 1])} | 0 <= i < k ensures Next(before[i], before[i + 1]) {
        assert Next(run[i], run[i + 1]);
      }
      Reachable(maxWidth, width, depth, n, before);
      NextKeeps(run[k], run[k + 1]);
    }
  }

  /** In every reachable state, for any run and any changes of width and depth: put counts are within
      the tail window, and a pending node's row too; every sub-queue of an earlier window has a
      confirmed item in each of its rows; the windows are contiguous, the tail is the last or the one
      before it, and the head is strictly before the tail. */
  lemma PutSideSafe(maxWidth: Width, width: nat, depth: nat, n: nat, run: seq<State>)
    requires IsRun(maxWidth, width, depth, n, run) && 1 <= width <= maxWidth && depth >= 1
    ensures var s := run[|run| - 1];
            && LateralOk(s) && s.maxWidth == maxWidth
            && (forall i :: 0 <= i < maxWidth ==> var x := s.subs[i];
                 && x.put.count <= s.wins[s.tail].max
                 && (Pending(x) ==> NextRow(s.wins[s.tail], x.put.count) <= s.wins[s.tail].max))
            && (forall k, i :: 0 < k < s.tail && 0 <= i < s.wins[k].width ==>
                 i < maxWidth && EveryRow(s.wins[k], s.subs[i]))
  {
    Reachable(maxWidth, width, depth, n, run);
    var s := run[|run| - 1];
    forall i | 0 <= i < maxWidth
      ensures var x := s.subs[i];
               && x.put.count <= s.wins[s.tail].max
               && (Pending(x) ==> NextRow(s.wins[s.tail], x.put.count) <= s.wins[s.tail].max)
    {
      assert SubOk(s.wins, s.tail, i, s.subs[i]);
    }
    forall k, i | 0 < k < s.tail && 0 <= i < s.wins[k].width ensures i < maxWidth && EveryRow(s.wins[k], s.subs[i]) {
      assert SubOk(s.wins, s.tail, i, s.subs[i]) && Filled(s.wins, i, s.subs[i], k);
      forall r: nat | Bottom(s.wins[k]) < r <= s.wins[k].max ensures r in s.subs[i].rows {
        assert HomeIn(s.wins, i, r, k);
        assert Home(s.wins, i, r);
      }
    }
  }
}
