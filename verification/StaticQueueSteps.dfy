/** The static 2D queue at access level: every shared read, CAS and store of put_window, get_window,
    enqueue and dequeue is a step of its own, for any number of threads.  Descriptors are read in two
    halves, in either order, so a thread may act on a node and a count that never belonged together.

    Nodes are never recycled and each is linked once, so a node of a sub-queue is named by its place
    in the list of all nodes ever linked there; node 0 is the initial dummy. */
module StaticQueueSteps {
  import opened Descriptor
  import opened History
  import opened Relaxation
  import opened Schedule
  import opened Search

  datatype Sub = Sub(list: seq<int>, put: Desc, get: Desc)

  /** Program counters, each naming the access that comes next.  tail and count, or head and count,
      are the two halves of a descriptor as they were read. */
  datatype Pc =
    | Idle
    | PutEnter(v: int)                              // load the put window
    | PutRead(v: int)                               // first half of the put descriptor
    | PutReadNode(v: int, count: nat)
    | PutReadCount(v: int, tail: nat)
    | PutCheck(v: int, tail: nat, count: nat)       // load the put window and decide
    | PutShift(v: int)                              // is the window still the thread's?
    | PutShiftCas(v: int)
    | PutResync(v: int)
    | EnqNext(v: int, tail: nat, count: nat)        // read tail->next
    | EnqRecheck(v: int, tail: nat, count: nat)     // read put_count again
    | EnqLink(v: int, tail: nat, count: nat)        // CAS tail->next from NULL
    | EnqHelp(v: int, tail: nat, count: nat)        // CAS the put descriptor past tail->next
    | EnqConfirm(tail: nat, count: nat)             // CAS the put descriptor to the own node
    | GetEnter
    | GetRead
    | GetReadNode(count: nat)
    | GetReadCount(head: nat)
    | GetReadPut(head: nat, count: nat)
    | GetCheck(head: nat, count: nat, put: nat)     // load the get window and decide
    | GetShift
    | GetShiftCas
    | GetResync
    | DeqTail(head: nat, count: nat)                // first half of the put descriptor
    | DeqTailNode(head: nat, count: nat, tcount: nat)
    | DeqTailCount(head: nat, count: nat, tail: nat)
    | DeqNext(head: nat, count: nat, tail: nat, tcount: nat)   // read head->next
    | DeqHelp(tail: nat, tcount: nat)
    | DeqSwing(head: nat, count: nat)               // CAS the get descriptor to head->next

  datatype Thread = Thread(index: nat, putMax: nat, getMax: nat, hops: nat, random: nat, contention: bool,
                           notempty: bool, pc: Pc) {
    function To(pc: Pc): Thread { this.(pc := pc) }
    /** hop: to r while random hops are left, else to the next index. */
    function Hop(width: nat, r: nat): Thread {
      if random < RANDOM_HOPS then this.(random := random + 1, index := r)
      else this.(hops := hops + 1, index := NextIndex(width, index))
    }
  }

  datatype State = State(depth: nat, putMax: nat, getMax: nat, subs: seq<Sub>, threads: seq<Thread>) {
    function Width(): nat { |subs| }
    function SetSub(i: nat, x: Sub): State requires i < |subs| { this.(subs := subs[i := x]) }
    function At(t: nat, th: Thread): State requires t < |threads| { this.(threads := threads[t := th]) }
  }

  /** nodeFirst is the order in which the halves of a descriptor are read, r a random index. */
  datatype Action = CallEnqueue(v: int) | CallDequeue | Go(r: nat, nodeFirst: bool)

  function Init(width: nat, depth: nat, threadCount: nat): State {
    State(depth, depth, depth, seq(width, _ => Sub([0], Desc(0, 0), Desc(0, 0))),
          seq(threadCount, _ => Thread(0, 0, 0, 0, 0, false, false, Idle)))
  }

  predicate Enabled(s: State, t: nat, act: Action) {
    && t < |s.threads| && s.threads[t].index < s.Width()
    && match act
       case CallEnqueue(_) => s.threads[t].pc.Idle?
       case CallDequeue => s.threads[t].pc.Idle?
       case Go(r, _) => !s.threads[t].pc.Idle? && r < s.Width()
  }

  function Step(s: State, t: nat, act: Action): (State, Event)
    requires Enabled(s, t, act)
  {
    var th := s.threads[t];
    match act
    case CallEnqueue(v) => (s.At(t, th.(contention := false).To(PutEnter(v))), Silent)
    case CallDequeue => (s.At(t, th.(contention := false).To(GetEnter)), Silent)
    case Go(r, nodeFirst) =>
      var x := s.subs[th.index];
      match th.pc
      case PutShiftCas(v) =>
        ((if s.putMax == th.putMax then s.(putMax := th.putMax + s.depth) else s).At(t, th.To(PutResync(v))), Silent)
      case GetShiftCas =>
        ((if s.getMax == th.getMax then s.(getMax := th.getMax + s.depth) else s).At(t, th.To(GetResync)), Silent)
      case EnqLink(v, tail, count) =>
        if tail == |x.list| - 1 then
          (s.SetSub(th.index, x.(list := x.list + [v])).At(t, th.To(EnqConfirm(tail, count))), Linked(th.index, v))
        else (s.At(t, th.(contention := true).To(PutEnter(v))), Silent)
      case EnqHelp(v, tail, count) => (SwapPut(s, t, tail, count, PutEnter(v)), Silent)
      case EnqConfirm(tail, count) => (SwapPut(s, t, tail, count, Idle), Silent)
      case DeqHelp(tail, tcount) => (SwapPut(s, t, tail, tcount, GetEnter), Silent)
      case DeqSwing(head, count) =>
        var w := if head + 1 < |x.list| then x.list[head + 1] else 0;
        (SwapGet(s, t, head, count), if x.get == Desc(head, count) then Taken(th.index, w) else Silent)
      case _ => (s.At(t, Look(s, th, r, nodeFirst)), Answer(th, Look(s, th, r, nodeFirst)))
  }

  /** The steps that change shared memory. */
  ghost predicate Writing(pc: Pc) {
    pc.PutShiftCas? || pc.GetShiftCas? || pc.EnqLink? || pc.EnqHelp? || pc.EnqConfirm? || pc.DeqHelp? || pc.DeqSwing?
  }

  /** A read that ends a dequeue answers that there is nothing. */
  function Answer(th: Thread, th1: Thread): Event { if th.pc.DeqNext? && th1.pc.Idle? then Empty(th.index) else Silent }

  /** CAS of the put descriptor of the thread's sub-queue to the next node and count. */
  function SwapPut(s: State, t: nat, tail: nat, count: nat, pc: Pc): State
    requires t < |s.threads| && s.threads[t].index < s.Width()
  {
    var th := s.threads[t];
    var x := s.subs[th.index];
    if x.put == Desc(tail, count) then s.SetSub(th.index, x.(put := Desc(tail + 1, count + 1))).At(t, th.To(pc))
    else s.At(t, th.(contention := true).To(pc))
  }

  /** CAS of the get descriptor of the thread's sub-queue to the next node and count. */
  function SwapGet(s: State, t: nat, head: nat, count: nat): State
    requires t < |s.threads| && s.threads[t].index < s.Width()
  {
    var th := s.threads[t];
    var x := s.subs[th.index];
    if x.get == Desc(head, count) then s.SetSub(th.index, x.(get := Desc(head + 1, count + 1))).At(t, th.To(Idle))
    else s.At(t, th.(contention := true).To(GetEnter))
  }

  /** The steps that only read shared memory. */
  function Look(s: State, th: Thread, r: nat, nodeFirst: bool): Thread
    requires th.index < s.Width()
  {
    var x := s.subs[th.index];
    match th.pc
    case PutEnter(v) =>
      th.(putMax := s.putMax, hops := 0, random := 0, index := if th.contention then r else th.index).To(PutRead(v))
    case PutRead(v) => th.To(if nodeFirst then PutReadCount(v, x.put.node) else PutReadNode(v, x.put.count))
    case PutReadNode(v, count) => th.To(PutCheck(v, x.put.node, count))
    case PutReadCount(v, tail) => th.To(PutCheck(v, tail, x.put.count))
    case PutCheck(v, tail, count) =>
      if s.putMax != th.putMax then th.(putMax := s.putMax, hops := 0).To(PutRead(v))
      else if count < s.putMax then th.To(EnqNext(v, tail, count))
      else if th.hops != s.Width() then th.Hop(s.Width(), r).To(PutRead(v))
      else th.To(PutShift(v))
    case PutShift(v) => th.To(if s.putMax == th.putMax then PutShiftCas(v) else PutResync(v))
    case PutResync(v) => th.(putMax := s.putMax, hops := 0).To(PutRead(v))
    case EnqNext(v, tail, count) =>
      th.To(if tail + 1 < |x.list| then EnqHelp(v, tail, count) else EnqRecheck(v, tail, count))
    case EnqRecheck(v, tail, count) => th.To(if x.put.count >= th.putMax then PutEnter(v) else EnqLink(v, tail, count))
    case GetEnter =>
      var index := if th.contention then r else th.index;
      th.(getMax := s.getMax, hops := 0, random := 0, notempty := false, index := index).To(GetRead)
    case GetRead => th.To(if nodeFirst then GetReadCount(x.get.node) else GetReadNode(x.get.count))
    case GetReadNode(count) => th.To(GetReadPut(x.get.node, count))
    case GetReadCount(head) => th.To(GetReadPut(head, x.get.count))
    case GetReadPut(head, count) => th.To(GetCheck(head, count, x.put.count))
    case GetCheck(head, count, put) =>
      if s.getMax != th.getMax then th.(getMax := s.getMax, hops := 0, notempty := false).To(GetRead)
      else if count < s.getMax && put != count then th.To(DeqTail(head, count))
      else if th.hops != s.Width() then th.Hop(s.Width(), r).(notempty := th.notempty || put != count).To(GetRead)
      else if th.notempty then th.To(GetShift)
      else th.To(DeqTail(head, count))
    case GetShift => th.To(if s.getMax == th.getMax then GetShiftCas else GetResync)
    case GetResync => th.(getMax := s.getMax, hops := 0, notempty := false).To(GetRead)
    case DeqTail(head, count) =>
      th.To(if nodeFirst then DeqTailCount(head, count, x.put.node) else DeqTailNode(head, count, x.put.count))
    case DeqTailNode(head, count, tcount) => th.To(DeqNext(head, count, x.put.node, tcount))
    case DeqTailCount(head, count, tail) => th.To(DeqNext(head, count, tail, x.put.count))
    case DeqNext(head, count, tail, tcount) =>
      th.To(if head != tail then DeqSwing(head, count) else if head + 1 < |x.list| then DeqHelp(tail, tcount) else Idle)
    case _ => th
  }

  // ---------------------------------------------------------------------------------------------
  // The invariant

  /** A sub-queue: counts equal places in the list, the get node does not pass the put node, at most
      one node is beyond the put descriptor, and that node too is within the put window. */
  ghost predicate SubOk(x: Sub, putMax: nat, depth: nat) {
    && x.get.node == x.get.count <= x.put.count == x.put.node < |x.list| <= x.put.node + 2
    && |x.list| - 1 <= putMax <= x.put.count + depth
  }

  ghost predicate SharedOk(s: State) {
    && s.depth >= 1 && s.Width() >= 1
    && Multiple(s.putMax, s.depth) && Multiple(s.getMax, s.depth) && s.getMax <= s.putMax
    && forall i {:trigger SubOk(s.subs[i], s.putMax, s.depth)} :: 0 <= i < s.Width() ==>
        SubOk(s.subs[i], s.putMax, s.depth)
  }

  /** Every sub-queue the put search has passed had reached the thread's window max, and counts
      never go down. */
  ghost predicate PassedFull(s: State, th: Thread) {
    forall i: nat {:trigger Passed(Start(s.Width(), th.index, th.hops), th.hops, s.Width(), i)} ::
      i < s.Width() && Passed(Start(s.Width(), th.index, th.hops), th.hops, s.Width(), i) ==>
          th.putMax <= s.subs[i].put.count
  }

  ghost predicate PutSide(pc: Pc) {
    pc.PutRead? || pc.PutReadNode? || pc.PutReadCount? || pc.PutCheck? || pc.PutShift? || pc.PutShiftCas?
  }

  ghost predicate GetSide(pc: Pc) {
    pc.GetRead? || pc.GetReadNode? || pc.GetReadCount? || pc.GetReadPut? || pc.GetCheck? || pc.GetShift? ||
        pc.GetShiftCas?
  }

  /** What a thread knows: lower bounds on things that never go down. */
  ghost predicate ThreadOk(s: State, th: Thread) {
    && th.index < s.Width() && th.putMax <= s.putMax && th.getMax <= s.getMax && th.random <= RANDOM_HOPS
    && (PutSide(th.pc) ==> th.hops <= s.Width() && PassedFull(s, th) && (th.hops > 0 ==> th.random == RANDOM_HOPS))
    && (th.pc.PutShift? || th.pc.PutShiftCas? ==> th.hops == s.Width())
    && (GetSide(th.pc) ==> th.hops <= s.Width())
    && (GetSide(th.pc) && th.notempty ==> th.getMax < s.putMax)
    && (th.pc.GetShift? || th.pc.GetShiftCas? ==> th.notempty)
    && var x := s.subs[th.index];
       match th.pc
       case PutReadNode(_, count) => count <= x.put.count
       case PutReadCount(_, tail) => tail <= x.put.node
       case PutCheck(_, tail, count) => tail <= x.put.node && count <= x.put.count
       case EnqNext(_, tail, _) => tail <= x.put.node
       case EnqRecheck(_, tail, _) => tail <= x.put.node
       case EnqLink(_, tail, _) => tail <= x.put.node && tail < th.putMax
       case EnqHelp(_, tail, _) => tail + 1 < |x.list|
       case EnqConfirm(tail, _) => tail + 1 < |x.list|
       case GetReadNode(count) => count <= x.get.count
       case GetReadCount(head) => head <= x.get.node
       case GetReadPut(head, count) => head <= x.get.node && count <= x.get.count
       case GetCheck(head, count, put) => head <= x.get.node && count <= put <= x.put.count
       case DeqTail(head, _) => head <= x.get.node
       case DeqTailNode(head, _, _) => head <= x.get.node
       case DeqTailCount(head, _, tail) => head <= x.get.node && head <= tail <= x.put.node
       case DeqNext(head, _, tail, _) => head <= x.get.node && head <= tail <= x.put.node
       case DeqHelp(tail, _) => tail + 1 < |x.list|
       case DeqSwing(head, _) => head < x.put.node
       case _ => true
  }

  ghost predicate Inv(s: State) {
    SharedOk(s) && forall t {:trigger s.threads[t]} :: 0 <= t < |s.threads| ==> ThreadOk(s, s.threads[t])
  }

  /** Shared memory only moves forward. */
  ghost predicate SubForward(x: Sub, y: Sub) {
    && x.list <= y.list && x.put.node <= y.put.node && x.put.count <= y.put.count
    && x.get.node <= y.get.node && x.get.count <= y.get.count
  }

  ghost predicate Forward(s: State, s1: State) {
    && s1.Width() == s.Width() && s1.depth == s.depth && |s1.threads| == |s.threads|
    && s.putMax <= s1.putMax && s.getMax <= s1.getMax
    && forall i {:trigger s1.subs[i]} :: 0 <= i < s.Width() ==> SubForward(s.subs[i], s1.subs[i])
  }

  /** So what one thread knows, no step of another can make wrong. */
  lemma Stable(s: State, s1: State, th: Thread)
    requires ThreadOk(s, th) && Forward(s, s1)
    ensures ThreadOk(s1, th)
  {
    assert SubForward(s.subs[th.index], s1.subs[th.index]);
    if PutSide(th.pc) {
      forall i: nat | i < s1.Width() && Passed(Start(s1.Width(), th.index, th.hops), th.hops, s1.Width(), i)
        ensures th.putMax <= s1.subs[i].put.count
      {
        assert Passed(Start(s.Width(), th.index, th.hops), th.hops, s.Width(), i);
        assert SubForward(s.subs[i], s1.subs[i]);
      }
    }
  }

  ghost predicate Kept(s: State, s1: State) { Inv(s1) && Forward(s, s1) }

  lemma Moved(s: State, s1: State, t: nat, th: Thread)
    requires Inv(s) && t < |s.threads| && s1.threads == s.threads && Forward(s, s1) && SharedOk(s1) && ThreadOk(s1, th)
    ensures Kept(s, s1.At(t, th))
  {
    var s2 := s1.At(t, th);
    assert forall i :: 0 <= i < s.Width() ==> s2.subs[i] == s1.subs[i] && SubForward(s.subs[i], s1.subs[i]);
    forall i | 0 <= i < s2.Width()
      ensures SubOk(s2.subs[i], s2.putMax, s2.depth)
    {
      assert SubOk(s1.subs[i], s1.putMax, s1.depth);
    }
    forall u | 0 <= u < |s2.threads| ensures ThreadOk(s2, s2.threads[u]) {
      if u != t { Stable(s, s1, s.threads[u]); }
      Stable(s1, s2, s2.threads[u]);
    }
  }

  /** One more hop in order passes the index it leaves. */
  lemma HopPasses(s: State, th: Thread, r: nat)
    requires SharedOk(s) && ThreadOk(s, th) && th.pc.PutCheck? && th.hops < s.Width() && r < s.Width()
    requires th.putMax <= s.subs[th.index].put.count
    ensures PassedFull(s, th.Hop(s.Width(), r)) && th.Hop(s.Width(), r).index < s.Width()
  {
    var w := s.Width();
    var th1 := th.Hop(w, r);
    forall i: nat | i < w && Passed(Start(w, th1.index, th1.hops), th1.hops, w, i)
      ensures th.putMax <= s.subs[i].put.count
    {
      if th.random == RANDOM_HOPS && i != th.index {
        assert Passed(Start(w, th.index, th.hops), th.hops, w, i);
      }
    }
  }

  ghost predicate LookReady(s: State, th: Thread, r: nat) {
    && s.Width() >= 1 && s.getMax <= s.putMax && ThreadOk(s, th) && r < s.Width()
    && SubOk(s.subs[th.index], s.putMax, s.depth)
  }

  lemma LookPutOk(s: State, th: Thread, r: nat, nodeFirst: bool)
    requires LookReady(s, th, r)
    requires th.pc.PutEnter? || th.pc.PutRead? || th.pc.PutReadNode? || th.pc.PutReadCount? || th.pc.PutShift? ||
        th.pc.PutResync?
    ensures ThreadOk(s, Look(s, th, r, nodeFirst))
  {
    if PutSide(th.pc) {
      assert PutSide(Look(s, th, r, nodeFirst).pc) ==> PassedFull(s, Look(s, th, r, nodeFirst));
    }
  }

  lemma LookPutCheckOk(s: State, th: Thread, r: nat, nodeFirst: bool)
    requires LookReady(s, th, r) && SharedOk(s) && th.pc.PutCheck?
    ensures ThreadOk(s, Look(s, th, r, nodeFirst))
  {
    if s.putMax == th.putMax && th.pc.count >= s.putMax && th.hops != s.Width() {
      HopPasses(s, th, r);
    }
  }

  lemma LookGetOk(s: State, th: Thread, r: nat, nodeFirst: bool)
    requires LookReady(s, th, r)
    requires th.pc.GetEnter? || th.pc.GetRead? || th.pc.GetReadNode? || th.pc.GetReadCount? || th.pc.GetReadPut? ||
        th.pc.GetShift? || th.pc.GetResync?
    ensures ThreadOk(s, Look(s, th, r, nodeFirst))
  {
  }

  /** A sub-queue that is non-empty yet out of reach proves that something lies above the window. */
  lemma LookCheckOk(s: State, th: Thread, r: nat, nodeFirst: bool)
    requires LookReady(s, th, r) && th.pc.GetCheck?
    ensures ThreadOk(s, Look(s, th, r, nodeFirst))
  {
  }

  lemma LookEnqOk(s: State, th: Thread, r: nat, nodeFirst: bool)
    requires LookReady(s, th, r) && (th.pc.EnqNext? || th.pc.EnqRecheck?)
    ensures ThreadOk(s, Look(s, th, r, nodeFirst))
  {
  }

  lemma LookDeqOk(s: State, th: Thread, r: nat, nodeFirst: bool)
    requires LookReady(s, th, r) && (th.pc.DeqTail? || th.pc.DeqTailNode? || th.pc.DeqTailCount? || th.pc.DeqNext?)
    ensures ThreadOk(s, Look(s, th, r, nodeFirst))
  {
  }

  lemma LookOk(s: State, t: nat, r: nat, nodeFirst: bool)
    requires Inv(s) && t < |s.threads| && r < s.Width()
    ensures ThreadOk(s, Look(s, s.threads[t], r, nodeFirst))
  {
    var th := s.threads[t];
    assert ThreadOk(s, th) && SubOk(s.subs[th.index], s.putMax, s.depth);
    assert LookReady(s, th, r);
    match th.pc {
      case EnqNext(_, _, _) => LookEnqOk(s, th, r, nodeFirst);
      case EnqRecheck(_, _, _) => LookEnqOk(s, th, r, nodeFirst);
      case DeqTail(_, _) => LookDeqOk(s, th, r, nodeFirst);
      case DeqTailNode(_, _, _) => LookDeqOk(s, th, r, nodeFirst);
      case DeqTailCount(_, _, _) => LookDeqOk(s, th, r, nodeFirst);
      case DeqNext(_, _, _, _) => LookDeqOk(s, th, r, nodeFirst);
      case GetCheck(_, _, _) => LookCheckOk(s, th, r, nodeFirst);
      case GetEnter => LookGetOk(s, th, r, nodeFirst);
      case GetRead => LookGetOk(s, th, r, nodeFirst);
      case GetReadNode(_) => LookGetOk(s, th, r, nodeFirst);
      case GetReadCount(_) => LookGetOk(s, th, r, nodeFirst);
      case GetReadPut(_, _) => LookGetOk(s, th, r, nodeFirst);
      case GetShift => LookGetOk(s, th, r, nodeFirst);
      case GetResync => LookGetOk(s, th, r, nodeFirst);
      case PutEnter(_) => LookPutOk(s, th, r, nodeFirst);
      case PutRead(_) => LookPutOk(s, th, r, nodeFirst);
      case PutReadNode(_, _) => LookPutOk(s, th, r, nodeFirst);
      case PutReadCount(_, _) => LookPutOk(s, th, r, nodeFirst);
      case PutCheck(_, _, _) => LookPutCheckOk(s, th, r, nodeFirst);
      case PutShift(_) => LookPutOk(s, th, r, nodeFirst);
      case PutResync(_) => LookPutOk(s, th, r, nodeFirst);
      case _ =>
    }
  }

  lemma SubChanged(s: State, i: nat, y: Sub)
    requires SharedOk(s) && i < s.Width() && SubOk(y, s.putMax, s.depth) && SubForward(s.subs[i], y)
    ensures SharedOk(s.SetSub(i, y)) && Forward(s, s.SetSub(i, y))
  {
    var s1 := s.SetSub(i, y);
    forall j | 0 <= j < s1.Width()
      ensures SubOk(s1.subs[j], s1.putMax, s1.depth)
    {
      assert SubOk(s.subs[j], s.putMax, s.depth);
    }
  }

  /** A thread that starts over, or is done, knows what it always knows. */
  lemma Rested(s: State, s1: State, th: Thread, contention: bool, pc: Pc)
    requires ThreadOk(s, th) && Forward(s, s1) && (pc.Idle? || pc.PutEnter? || pc.GetEnter?)
    ensures ThreadOk(s1, th.(contention := contention).To(pc))
  {
  }

  /** Thread t changes its sub-queue to y and goes on to pc. */
  lemma SubMoved(s: State, t: nat, y: Sub, pc: Pc)
    requires Inv(s) && t < |s.threads| && s.threads[t].index < s.Width()
    requires SubOk(y, s.putMax, s.depth) && SubForward(s.subs[s.threads[t].index], y)
    requires pc.Idle? || pc.PutEnter? || pc.GetEnter? || (pc.EnqConfirm? && pc.tail + 1 < |y.list|)
    ensures Kept(s, s.SetSub(s.threads[t].index, y).At(t, s.threads[t].To(pc)))
  {
    var th := s.threads[t];
    var s1 := s.SetSub(th.index, y);
    SubChanged(s, th.index, y);
    assert ThreadOk(s, th);
    if !pc.EnqConfirm? { Rested(s, s1, th, th.contention, pc); }
    Moved(s, s1, t, th.To(pc));
  }

  lemma Retried(s: State, t: nat, pc: Pc)
    requires Inv(s) && t < |s.threads| && (pc.Idle? || pc.PutEnter? || pc.GetEnter?)
    ensures Kept(s, s.At(t, s.threads[t].(contention := true).To(pc)))
  {
    assert ThreadOk(s, s.threads[t]);
    Rested(s, s, s.threads[t], true, pc);
    Moved(s, s, t, s.threads[t].(contention := true).To(pc));
  }

  /** The put descriptor never lags behind or overtakes: whoever confirms a node, the count it
      writes is the node's place, and a torn descriptor makes the CAS fail. */
  lemma SwapPutOk(s: State, t: nat, tail: nat, count: nat, pc: Pc)
    requires Inv(s) && t < |s.threads| && (pc.PutEnter? || pc.Idle? || pc.GetEnter?)
    requires s.threads[t].index < s.Width() && tail + 1 < |s.subs[s.threads[t].index].list|
    ensures Kept(s, SwapPut(s, t, tail, count, pc))
  {
    var x := s.subs[s.threads[t].index];
    assert SubOk(x, s.putMax, s.depth);
    if x.put == Desc(tail, count) {
      SubMoved(s, t, x.(put := Desc(tail + 1, count + 1)), pc);
    } else {
      Retried(s, t, pc);
    }
  }

  /** The re-check before the link CAS is what keeps admission safe under torn reads. */
  lemma LinkOk(s: State, t: nat, act: Action)
    requires Inv(s) && Enabled(s, t, act) && act.Go? && s.threads[t].pc.EnqLink?
    ensures Kept(s, Step(s, t, act).0)
  {
    var x := s.subs[s.threads[t].index];
    assert ThreadOk(s, s.threads[t]) && SubOk(x, s.putMax, s.depth);
    var EnqLink(v, tail, count) := s.threads[t].pc;
    if tail == |x.list| - 1 {
      SubMoved(s, t, x.(list := x.list + [v]), EnqConfirm(tail, count));
    } else {
      Retried(s, t, PutEnter(v));
    }
  }

  lemma SwingOk(s: State, t: nat)
    requires Inv(s) && t < |s.threads| && s.threads[t].pc.DeqSwing? && s.threads[t].index < s.Width()
    ensures Kept(s, SwapGet(s, t, s.threads[t].pc.head, s.threads[t].pc.count))
  {
    var x := s.subs[s.threads[t].index];
    assert ThreadOk(s, s.threads[t]) && SubOk(x, s.putMax, s.depth);
    var DeqSwing(head, count) := s.threads[t].pc;
    if x.get == Desc(head, count) {
      SubMoved(s, t, x.(get := Desc(head + 1, count + 1)), Idle);
    } else {
      Retried(s, t, GetEnter);
    }
  }

  /** The put window moves only when every sub-queue has been filled to its max. */
  lemma PutShiftOk(s: State, t: nat, act: Action)
    requires Inv(s) && Enabled(s, t, act) && act.Go? && s.threads[t].pc.PutShiftCas?
    ensures Kept(s, Step(s, t, act).0)
    ensures Step(s, t, act).0.putMax != s.putMax ==> forall i :: 0 <= i < s.Width() ==> s.subs[i].put.count == s.putMax
  {
    var th := s.threads[t];
    assert ThreadOk(s, th);
    PassComplete(s.Width(), th.index);
    var s1 := if s.putMax == th.putMax then s.(putMax := th.putMax + s.depth) else s;
    MultipleStep(s.putMax, s.depth);
    forall i | 0 <= i < s.Width()
      ensures SubOk(s1.subs[i], s1.putMax, s1.depth) && (s1 != s ==> s.subs[i].put.count == s.putMax)
    {
      assert SubOk(s.subs[i], s.putMax, s.depth);
      assert Passed(Start(s.Width(), th.index, th.hops), th.hops, s.Width(), i);
    }
    Moved(s, s1, t, th.To(PutResync(th.pc.v)));
  }

  /** The get window moves only when something was put above it, so it never overtakes. */
  lemma GetShiftOk(s: State, t: nat, act: Action)
    requires Inv(s) && Enabled(s, t, act) && act.Go? && s.threads[t].pc.GetShiftCas?
    ensures Kept(s, Step(s, t, act).0)
  {
    var th := s.threads[t];
    assert ThreadOk(s, th);
    var s1 := if s.getMax == th.getMax then s.(getMax := th.getMax + s.depth) else s;
    MultipleStep(s.getMax, s.depth);
    if s.getMax == th.getMax { MultiplesApart(s.getMax, s.putMax, s.depth); }
    forall i | 0 <= i < s.Width()
      ensures SubOk(s1.subs[i], s1.putMax, s1.depth)
    {
      assert SubOk(s.subs[i], s.putMax, s.depth);
    }
    Moved(s, s1, t, th.To(GetResync));
  }

  lemma CallOk(s: State, t: nat, act: Action)
    requires Inv(s) && Enabled(s, t, act) && !act.Go?
    ensures Kept(s, Step(s, t, act).0)
  {
    assert ThreadOk(s, s.threads[t]);
    Moved(s, s, t, Step(s, t, act).0.threads[t]);
  }

  lemma LookStepOk(s: State, t: nat, act: Action)
    requires Inv(s) && Enabled(s, t, act) && act.Go?
    requires Step(s, t, act).0 == s.At(t, Look(s, s.threads[t], act.r, act.nodeFirst))
    ensures Kept(s, Step(s, t, act).0)
  {
    LookOk(s, t, act.r, act.nodeFirst);
    Moved(s, s, t, Look(s, s.threads[t], act.r, act.nodeFirst));
  }

  lemma SwapPutStepOk(s: State, t: nat, act: Action)
    requires Inv(s) && Enabled(s, t, act) && act.Go?
    requires var pc := s.threads[t].pc; pc.EnqHelp? || pc.EnqConfirm? || pc.DeqHelp?
    ensures Kept(s, Step(s, t, act).0)
  {
    assert ThreadOk(s, s.threads[t]);
    match s.threads[t].pc {
      case EnqHelp(v, tail, count) => SwapPutOk(s, t, tail, count, PutEnter(v));
      case EnqConfirm(tail, count) => SwapPutOk(s, t, tail, count, Idle);
      case DeqHelp(tail, tcount) => SwapPutOk(s, t, tail, tcount, GetEnter);
    }
  }

  /** Every step of every thread keeps the invariant and only moves shared memory forward. */
  lemma StepKeeps(s: State, t: nat, act: Action)
    requires Inv(s) && Enabled(s, t, act)
    ensures Kept(s, Step(s, t, act).0)
  {
    if act.Go? {
      match s.threads[t].pc {
        case PutShiftCas(_) => PutShiftOk(s, t, act);
        case GetShiftCas => GetShiftOk(s, t, act);
        case EnqLink(_, _, _) => LinkOk(s, t, act);
        case EnqHelp(_, _, _) => SwapPutStepOk(s, t, act);
        case EnqConfirm(_, _) => SwapPutStepOk(s, t, act);
        case DeqHelp(_, _) => SwapPutStepOk(s, t, act);
        case DeqSwing(_, _) => SwingOk(s, t);
        case _ => LookStepOk(s, t, act);
      }
    } else {
      CallOk(s, t, act);
    }
  }

  // ---------------------------------------------------------------------------------------------
  // What holds over whole runs

  ghost predicate Next(s: State, e: Event, s1: State) {
    exists t, act :: Enabled(s, t, act) && Step(s, t, act) == (s1, e)
  }

  ghost predicate IsRun(width: nat, depth: nat, n: nat, run: seq<State>, events: seq<Event>) {
    && |run| == |events| + 1 && run[0] == Init(width, depth, n)
    && forall i {:trigger Next(run[i], events[i], run[i + 1])} :: 0 <= i < |events| ==>
        Next(run[i], events[i], run[i + 1])
  }

  /** The same with the moves the run is made of. */
  ghost predicate Makes(s: State, m: Move<Action>, s1: State, e: Event) {
    Enabled(s, m.t, m.act) && Step(s, m.t, m.act) == (s1, e)
  }

  ghost predicate IsRunOf(width: nat, depth: nat, n: nat, run: seq<State>, moves: seq<Move<Action>>,
                          events: seq<Event>) {
    Chain(run, moves, events, Makes) && run[0] == Init(width, depth, n)
  }

  /** What a step does to sub-queue i, told by its event. */
  lemma EventTells(s: State, t: nat, act: Action, i: nat)
    requires Inv(s) && Enabled(s, t, act) && i < s.Width()
    ensures var (s1, e) := Step(s, t, act);
            && s1.Width() == s.Width()
            && Tells(e, i, s.subs[i].list, s.subs[i].get.node, s1.subs[i].list, s1.subs[i].get.node)
  {
    var th := s.threads[t];
    assert ThreadOk(s, th) && SubOk(s.subs[th.index], s.putMax, s.depth);
    assert forall l: seq<int> :: l + [] == l;
  }

  /** Each list holds what was linked, and the get descriptor stands after what was taken. */
  ghost predicate Explained(events: seq<Event>, s: State, i: nat) requires i < s.Width() {
    Explains(events, i, s.subs[i].list, s.subs[i].get.node)
  }

  lemma EventExplained(events: seq<Event>, s: State, t: nat, act: Action, i: nat)
    requires Inv(s) && Enabled(s, t, act) && i < s.Width() && Explained(events, s, i)
    ensures Step(s, t, act).0.Width() == s.Width() && Explained(events + [Step(s, t, act).1], Step(s, t, act).0, i)
  {
    var (s1, e) := Step(s, t, act);
    EventTells(s, t, act, i);
    ExplainsOn(events, e, i, s.subs[i].list, s.subs[i].get.node, s1.subs[i].list, s1.subs[i].get.node);
  }

  lemma {:induction false} Reachable(width: nat, depth: nat, n: nat, run: seq<State>, events: seq<Event>)
    requires IsRun(width, depth, n, run, events) && width >= 1 && depth >= 1
    ensures var s := run[|events|];
            Inv(s) && s.Width() == width && forall i :: 0 <= i < width ==> Explained(events, s, i)
    decreases |events|
  {
    if events == [] {
      MultipleZero(depth);
      var s := Init(width, depth, n);
      forall i | 0 <= i < width ensures SubOk(s.subs[i], s.putMax, s.depth) {}
    } else {
      var k := |events| - 1;
      forall i | 0 <= i < k
        ensures Next(run[..k + 1][i], events[..k][i], run[..k + 1][i + 1])
      {
        assert Next(run[i], events[i], run[i + 1]);
      }
      Reachable(width, depth, n, run[..k + 1], events[..k]);
      assert Next(run[k], events[k], run[k + 1]);
      var t, act :| Enabled(run[k], t, act) && Step(run[k], t, act) == (run[k + 1], events[k]);
      StepKeeps(run[k], t, act);
      assert events == events[..k] + [events[k]];
      forall i {:trigger Explained(events, run[k + 1], i)} | 0 <= i < width ensures Explained(events, run[k + 1], i) {
        EventExplained(events[..k], run[k], t, act, i);
      }
    }
  }

  /** Each sub-queue is FIFO, returns nothing twice and nothing that was not enqueued there. */
  lemma SubQueuesFifo(width: nat, depth: nat, n: nat, run: seq<State>, events: seq<Event>, i: nat)
    requires IsRun(width, depth, n, run, events) && i < width && depth >= 1
    ensures TakenIn(events, i) <= LinkedIn(events, i)
  {
    Reachable(width, depth, n, run, events);
    assert Explained(events, run[|events|], i);
  }

  /** In every reachable state what has been linked to a sub-queue, confirmed or not, is within the put
      window; its put count is within one depth of the window's max and at most one behind what was
      linked; its get count does not pass its put count; and the get window has not overtaken the put
      window. */
  lemma Admission(width: nat, depth: nat, n: nat, run: seq<State>, events: seq<Event>, i: nat)
    requires IsRun(width, depth, n, run, events) && i < width && depth >= 1
    ensures var s := run[|events|];
            && i < s.Width() && var x := s.subs[i];
            && x.put.count <= |LinkedIn(events, i)| <= x.put.count + 1 &&
                |LinkedIn(events, i)| <= s.putMax <= x.put.count + depth
            && |TakenIn(events, i)| == x.get.count <= x.put.count && s.getMax <= s.putMax
  {
    Reachable(width, depth, n, run, events);
    DepthFixed(width, depth, n, run, events);
    var s := run[|events|];
    assert Explained(events, s, i) && SubOk(s.subs[i], s.putMax, s.depth);
  }

  lemma {:induction false} DepthFixed(width: nat, depth: nat, n: nat, run: seq<State>, events: seq<Event>)
    requires IsRun(width, depth, n, run, events)
    ensures run[|events|].depth == depth
    decreases |events|
  {
    if events != [] {
      var k := |events| - 1;
      forall i | 0 <= i < k
        ensures Next(run[..k + 1][i], events[..k][i], run[..k + 1][i + 1])
      {
        assert Next(run[i], events[i], run[i + 1]);
      }
      DepthFixed(width, depth, n, run[..k + 1], events[..k]);
      assert Next(run[k], events[k], run[k + 1]);
    }
  }

  // ---------------------------------------------------------------------------------------------
  // A window without rows

  /** What a thread can be about when there never was room for a node. */
  ghost predicate BarrenPc(pc: Pc) {
    match pc
    case EnqNext(_, _, _) => false
    case EnqRecheck(_, _, _) => false
    case EnqLink(_, _, _) => false
    case EnqHelp(_, _, _) => false
    case EnqConfirm(_, _) => false
    case GetReadCount(head) => head == 0
    case GetReadPut(head, _) => head == 0
    case GetCheck(head, _, _) => head == 0
    case DeqTail(head, _) => head == 0
    case DeqTailNode(head, _, _) => head == 0
    case DeqTailCount(head, _, tail) => head == 0 && tail == 0
    case DeqNext(head, _, tail, _) => head == 0 && tail == 0
    case DeqHelp(_, _) => false
    case DeqSwing(_, _) => false
    case _ => true
  }

  ghost predicate Barren(s: State) {
    && s.depth == 0 && s.putMax == 0
    && (forall i :: 0 <= i < s.Width() ==> s.subs[i] == Sub([0], Desc(0, 0), Desc(0, 0)))
    && forall t :: 0 <= t < |s.threads| ==> BarrenPc(s.threads[t].pc)
  }

  lemma StaysBarren(s: State, t: nat, act: Action)
    requires Barren(s) && Enabled(s, t, act)
    ensures Barren(Step(s, t, act).0) && (Step(s, t, act).1.Silent? || Step(s, t, act).1.Empty?)
  {
    var th := s.threads[t];
    assert BarrenPc(th.pc);
    if act.Go? && !th.pc.PutShiftCas? && !th.pc.GetShiftCas? {
      LooksBarren(s, th, act.r, act.nodeFirst);
      assert Step(s, t, act).0 == s.At(t, Look(s, th, act.r, act.nodeFirst));
    }
  }

  lemma LooksBarren(s: State, th: Thread, r: nat, nodeFirst: bool)
    requires Barren(s) && th.index < s.Width() && BarrenPc(th.pc)
    ensures BarrenPc(Look(s, th, r, nodeFirst).pc)
  {
  }

  /** With depth 0, which the parameters of a queue may come out as, nothing is ever enqueued. */
  lemma {:induction false} DepthZeroBarren(width: nat, n: nat, run: seq<State>, events: seq<Event>, i: nat)
    requires IsRun(width, 0, n, run, events)
    ensures Barren(run[|events|]) && LinkedIn(events, i) == []
    decreases |events|
  {
    if events != [] {
      var k := |events| - 1;
      var before := run[..k + 1];
      forall j {:trigger Next(before[j], events[..k][j], before[j + 1])} | 0 <= j < k
        ensures Next(before[j], events[..k][j], before[j + 1])
      {
        assert Next(run[j], events[j], run[j + 1]);
      }
      DepthZeroBarren(width, n, before, events[..k], i);
      assert Next(run[k], events[k], run[k + 1]);
      var t, act :| Enabled(run[k], t, act) && Step(run[k], t, act) == (run[k + 1], events[k]);
      StaysBarren(run[k], t, act);
    }
  }
}
