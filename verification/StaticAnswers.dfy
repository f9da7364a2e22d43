/** What the calls of the static 2D queue come to, at access level: every enqueue links its own value,
    exactly once; every dequeue takes one item or answers that there is nothing; and when it may
    answer that. */
module StaticAnswers {
  import opened Descriptor
  import opened History
  import opened Schedule
  import opened Search
  import opened StaticQueueSteps

  function Called(act: Action): Maybe<Call> {
    match act
    case CallEnqueue(v) => Yes(Enq(v))
    case CallDequeue => Yes(Deq)
    case Go(_, _) => No
  }

  /** What a thread waits for: an enqueue whose node is not linked yet, or a dequeue. */
  function WaitsAt(pc: Pc): Maybe<Call> {
    match pc
    case Idle => No
    case EnqConfirm(_, _) => No
    case PutEnter(v) => Yes(Enq(v))
    case PutRead(v) => Yes(Enq(v))
    case PutReadNode(v, _) => Yes(Enq(v))
    case PutReadCount(v, _) => Yes(Enq(v))
    case PutCheck(v, _, _) => Yes(Enq(v))
    case PutShift(v) => Yes(Enq(v))
    case PutShiftCas(v) => Yes(Enq(v))
    case PutResync(v) => Yes(Enq(v))
    case EnqNext(v, _, _) => Yes(Enq(v))
    case EnqRecheck(v, _, _) => Yes(Enq(v))
    case EnqLink(v, _, _) => Yes(Enq(v))
    case EnqHelp(v, _, _) => Yes(Enq(v))
    case _ => Yes(Deq)
  }

  function Waits(s: State, t: nat): Maybe<Call> { if t < |s.threads| then WaitsAt(s.threads[t].pc) else No }

  ghost predicate LooksOn(s: State, th: Thread, r: nat, nodeFirst: bool) requires th.index < s.Width() {
    WaitsAt(Look(s, th, r, nodeFirst).pc) == WaitsAt(th.pc)
  }

  lemma EnqueueLooksOn(s: State, th: Thread, r: nat, nodeFirst: bool)
    requires th.index < s.Width() && WaitsAt(th.pc).Yes? && WaitsAt(th.pc).get.Enq?
    ensures LooksOn(s, th, r, nodeFirst)
  {
  }

  lemma SearchLooksOn(s: State, th: Thread, r: nat, nodeFirst: bool)
    requires th.index < s.Width() && (GetSide(th.pc) || th.pc.GetEnter? || th.pc.GetResync?)
    ensures LooksOn(s, th, r, nodeFirst)
  {
  }

  lemma DequeueLooksOn(s: State, th: Thread, r: nat, nodeFirst: bool)
    requires th.index < s.Width() && WaitsAt(th.pc) == Yes(Deq) && !th.pc.DeqNext?
    ensures LooksOn(s, th, r, nodeFirst)
  {
    if GetSide(th.pc) || th.pc.GetEnter? || th.pc.GetResync? { SearchLooksOn(s, th, r, nodeFirst); }
  }

  /** What a step does to what its thread waits for, as its event tells. */
  ghost predicate WaitsTold(s: State, t: nat, act: Action) requires Enabled(s, t, act) {
    var (s1, e) := Step(s, t, act);
    && Fits(Move(t, act), e, Waits(s, t), Called, IsAnswer, Answering)
    && |s1.threads| == |s.threads| && s1.threads == s.threads[t := s1.threads[t]]
    && Waits(s1, t) == if Called(act).Yes? then Called(act) else if IsAnswer(e) then No else Waits(s, t)
  }

  lemma WriteTold(s: State, t: nat, act: Action)
    requires Enabled(s, t, act) && act.Go? && Writing(s.threads[t].pc)
    ensures WaitsTold(s, t, act)
  {
  }

  lemma LookTold(s: State, t: nat, act: Action)
    requires Enabled(s, t, act) && act.Go? && !Writing(s.threads[t].pc)
    ensures WaitsTold(s, t, act)
  {
    var th := s.threads[t];
    assert Step(s, t, act).0 == s.At(t, Look(s, th, act.r, act.nodeFirst));
    if WaitsAt(th.pc) != Yes(Deq) { EnqueueLooksOn(s, th, act.r, act.nodeFirst); }
    else if !th.pc.DeqNext? { DequeueLooksOn(s, th, act.r, act.nodeFirst); }
  }

  lemma StepTold(s: State, t: nat, act: Action)
    requires Enabled(s, t, act)
    ensures WaitsTold(s, t, act)
  {
    if act.Go? { if Writing(s.threads[t].pc) { WriteTold(s, t, act); } else { LookTold(s, t, act); } }
  }

  /** Over every run: each enqueue called links its own value, exactly once, and each dequeue called takes one
      item or answers that there is nothing, before its thread calls again; nothing else is ever linked
      or taken.  A thread that is back has its answer. */
  lemma EachAnswered(width: nat, depth: nat, n: nat, run: seq<State>, moves: seq<Move<Action>>, events: seq<Event>)
    requires IsRunOf(width, depth, n, run, moves, events)
    ensures Answered(moves, events, Called, IsAnswer, Answering)
    ensures forall t :: 0 <= t < n && t < |run[|moves|].threads| && run[|moves|].threads[t].pc.Idle? ==>
        Waiting(moves, events, Called, IsAnswer, t) == No
  {
    forall s, m, s1, e | Makes(s, m, s1, e)
      ensures Fits(m, e, Waits(s, m.t), Called, IsAnswer, Answering)
      ensures forall u :: u != m.t ==> Waits(s1, u) == Waits(s, u)
      ensures Waits(s1, m.t) == if Called(m.act).Yes? then Called(m.act) else if IsAnswer(e) then No else Waits(s, m.t)
    {
      StepTold(s, m.t, m.act);
    }
    AllAnswered(run, moves, events, Makes, Waits, Called, IsAnswer, Answering);
  }

  // ---------------------------------------------------------------------------------------------
  // What is so when a call ends

  /** A dequeue answers that there is nothing only where its sub-queue holds nothing, linked or confirmed. */
  lemma EmptyHolds(s: State, t: nat, act: Action)
    requires Inv(s) && Enabled(s, t, act) && Step(s, t, act).1.Empty?
    ensures var i := Step(s, t, act).1.k; i < s.Width() && |s.subs[i].list| == s.subs[i].get.node + 1
  {
    var th := s.threads[t];
    assert ThreadOk(s, th) && SubOk(s.subs[th.index], s.putMax, s.depth);
  }

  /** An enqueue leaves its node confirmed, unless the descriptor it had read was torn. */
  lemma ConfirmSettles(s: State, t: nat, act: Action)
    requires Inv(s) && Enabled(s, t, act) && act.Go? && s.threads[t].pc.EnqConfirm?
    ensures var th, s1 := s.threads[t], Step(s, t, act).0;
            && s1.threads[t].pc.Idle? && th.index < s1.Width()
            && (th.pc.tail == th.pc.count ==> th.pc.tail < s1.subs[th.index].put.node)
  {
    var th := s.threads[t];
    assert ThreadOk(s, th) && SubOk(s.subs[th.index], s.putMax, s.depth);
  }

  lemma {:induction false} InvAt(width: nat, depth: nat, n: nat, run: seq<State>, moves: seq<Move<Action>>,
                                 events: seq<Event>, k: nat)
    requires IsRunOf(width, depth, n, run, moves, events) && width >= 1 && depth >= 1 && k <= |moves|
    ensures Inv(run[k]) && run[k].Width() == width
  {
    if k == 0 {
      Reachable(width, depth, n, [run[0]], []);
    } else {
      InvAt(width, depth, n, run, moves, events, k - 1);
      ChainAt(run, moves, events, Makes, k - 1);
      StepKeeps(run[k - 1], moves[k - 1].t, moves[k - 1].act);
    }
  }

  // ---------------------------------------------------------------------------------------------
  // What a dequeue has seen when it answers that there is nothing

  /** Nothing confirmed is left in sub-queue j. */
  predicate EmptyAt(s: State, j: nat) { j < s.Width() && s.subs[j].get.count == s.subs[j].put.count }

  /** The state thread t's last call led to. */
  function Since(moves: seq<Move<Action>>, t: nat, k: nat): nat requires k <= |moves| {
    if k == 0 then 0 else if moves[k - 1].t == t && !moves[k - 1].act.Go? then k else Since(moves, t, k - 1)
  }

  ghost predicate SeenEmpty(run: seq<State>, from: nat, to: nat, j: nat) requires to < |run| {
    exists k :: from <= k <= to && EmptyAt(run[k], j)
  }

  ghost function Seen(run: seq<State>, from: nat, to: nat, width: nat): set<nat> requires to < |run| {
    set j: nat | j < width && SeenEmpty(run, from, to, j)
  }

  ghost predicate AllSeen(s: State, seen: set<nat>) { forall j: nat :: j < s.Width() ==> j in seen }

  ghost predicate PassedSeen(s: State, th: Thread, seen: set<nat>) {
    forall j: nat {:trigger Passed(Start(s.Width(), th.index, th.hops), th.hops, s.Width(), j)} ::
      j < s.Width() && Passed(Start(s.Width(), th.index, th.hops), th.hops, s.Width(), j) ==> j in seen
  }

  predicate TakingSide(pc: Pc) { pc.DeqTail? || pc.DeqTailNode? || pc.DeqTailCount? || pc.DeqNext? || pc.DeqSwing? }

  /** What a dequeue's place says about the sub-queues it has seen empty since it was called.  A descriptor whose
      count is older than its node makes it stop at a sub-queue where there is nothing to take. */
  ghost predicate Knows(s: State, th: Thread, seen: set<nat>) {
    && th.index < s.Width()
    && (GetSide(th.pc) ==> (th.hops > 0 ==> th.random == RANDOM_HOPS) && (!th.notempty ==> PassedSeen(s, th, seen)))
    && (TakingSide(th.pc) ==> th.pc.count < th.getMax || AllSeen(s, seen))
    && match th.pc
       case GetCheck(_, count, put) => put == count ==> th.index in seen
       case DeqTail(head, count) => AllSeen(s, seen) || count < head || head < s.subs[th.index].put.node
       case DeqTailNode(head, count, _) => AllSeen(s, seen) || count < head || head < s.subs[th.index].put.node
       case DeqTailCount(head, count, tail) => AllSeen(s, seen) || count < head || head < tail
       case DeqNext(head, count, tail, _) => AllSeen(s, seen) || count < head || head < tail
       case _ => true
  }

  lemma KnowsMore(s: State, s1: State, th: Thread, seen: set<nat>, seen1: set<nat>)
    requires Knows(s, th, seen) && Forward(s, s1) && seen <= seen1
    ensures Knows(s1, th, seen1)
  {
    assert SubForward(s.subs[th.index], s1.subs[th.index]);
    if GetSide(th.pc) && !th.notempty {
      forall j: nat | j < s1.Width() && Passed(Start(s1.Width(), th.index, th.hops), th.hops, s1.Width(), j)
        ensures j in seen1
      {
        assert Passed(Start(s.Width(), th.index, th.hops), th.hops, s.Width(), j);
      }
    }
  }

  ghost predicate Watching(s: State, th: Thread, seen: set<nat>, r: nat) {
    && LookReady(s, th, r) && Knows(s, th, seen) && forall j :: EmptyAt(s, j) ==> j in seen
  }

  lemma ReadKnows(s: State, th: Thread, seen: set<nat>, r: nat, nodeFirst: bool)
    requires Watching(s, th, seen, r)
    requires th.pc.GetRead? || th.pc.GetReadNode? || th.pc.GetReadCount? || th.pc.GetReadPut?
    ensures Knows(s, Look(s, th, r, nodeFirst), seen)
  {
    assert !th.notempty ==> PassedSeen(s, Look(s, th, r, nodeFirst), seen);
  }

  lemma HopSeen(s: State, th: Thread, seen: set<nat>, r: nat, notempty: bool)
    requires Watching(s, th, seen, r) && th.pc.GetCheck? && th.hops < s.Width() && !th.notempty && th.index in seen
    ensures PassedSeen(s, th.Hop(s.Width(), r).(notempty := notempty).To(GetRead), seen)
  {
    var w, th1 := s.Width(), th.Hop(s.Width(), r);
    forall i: nat | i < w && Passed(Start(w, th1.index, th1.hops), th1.hops, w, i) ensures i in seen {
      if th.random == RANDOM_HOPS && i != th.index { assert Passed(Start(w, th.index, th.hops), th.hops, w, i); }
    }
  }

  lemma CheckKnows(s: State, th: Thread, seen: set<nat>, r: nat, nodeFirst: bool)
    requires Watching(s, th, seen, r) && th.pc.GetCheck?
    ensures Knows(s, Look(s, th, r, nodeFirst), seen)
  {
    var w := s.Width();
    if s.getMax == th.getMax {
      if !th.notempty && th.pc.put == th.pc.count && th.hops != w {
        HopSeen(s, th, seen, r, false);
      }
      if !th.notempty && th.hops == w {
        PassComplete(w, th.index);
        forall j: nat | j < w ensures j in seen { assert Passed(Start(w, th.index, th.hops), th.hops, w, j); }
      }
    }
  }

  lemma DeqKnows(s: State, th: Thread, seen: set<nat>, r: nat, nodeFirst: bool)
    requires Watching(s, th, seen, r) && (th.pc.DeqTail? || th.pc.DeqTailNode? || th.pc.DeqTailCount? || th.pc.DeqNext?)
    ensures Knows(s, Look(s, th, r, nodeFirst), seen)
  {
  }

  lemma EnterKnows(s: State, th: Thread, seen: set<nat>, r: nat, nodeFirst: bool)
    requires Watching(s, th, seen, r) && (th.pc.GetEnter? || th.pc.GetShift? || th.pc.GetResync?)
    ensures Knows(s, Look(s, th, r, nodeFirst), seen)
  {
  }

  lemma PutKnows(s: State, th: Thread, seen: set<nat>, r: nat, nodeFirst: bool)
    requires Watching(s, th, seen, r) && WaitsAt(th.pc) != Yes(Deq) && !th.pc.Idle?
    ensures Knows(s, Look(s, th, r, nodeFirst), seen)
  {
    if th.pc.EnqConfirm? { } else { EnqueueLooksOn(s, th, r, nodeFirst); LookPlaced(s, th, r, nodeFirst); }
  }

  lemma LookPlaced(s: State, th: Thread, r: nat, nodeFirst: bool)
    requires th.index < s.Width() && r < s.Width()
    ensures Look(s, th, r, nodeFirst).index < s.Width()
  {
  }

  lemma LookKnows(s: State, th: Thread, seen: set<nat>, r: nat, nodeFirst: bool)
    requires Watching(s, th, seen, r) && !th.pc.Idle? && !Writing(th.pc)
    ensures Knows(s, Look(s, th, r, nodeFirst), seen)
  {
    var pc := th.pc;
    if WaitsAt(pc) != Yes(Deq) { PutKnows(s, th, seen, r, nodeFirst); }
    else if pc.GetCheck? { CheckKnows(s, th, seen, r, nodeFirst); }
    else if pc.GetEnter? || pc.GetShift? || pc.GetResync? { EnterKnows(s, th, seen, r, nodeFirst); }
    else if TakingSide(pc) { DeqKnows(s, th, seen, r, nodeFirst); }
    else { ReadKnows(s, th, seen, r, nodeFirst); }
  }

  ghost predicate MovesOn(run: seq<State>, moves: seq<Move<Action>>, events: seq<Event>, k: nat) {
    && |run| == |moves| + 1 == |events| + 1 && k < |moves| && Makes(run[k], moves[k], run[k + 1], events[k])
    && Kept(run[k], run[k + 1]) && Inv(run[k])
  }

  ghost function SeenBy(run: seq<State>, moves: seq<Move<Action>>, t: nat, k: nat): set<nat>
    requires |run| == |moves| + 1 && k <= |moves|
  {
    Seen(run, Since(moves, t, k), k, run[0].Width())
  }

  lemma SinceBefore(moves: seq<Move<Action>>, t: nat, k: nat)
    requires k <= |moves|
    ensures Since(moves, t, k) <= k
  {
  }

  lemma SeenGrows(run: seq<State>, moves: seq<Move<Action>>, t: nat, k: nat)
    requires |run| == |moves| + 1 && k < |moves| && Since(moves, t, k + 1) == Since(moves, t, k)
    ensures SeenBy(run, moves, t, k) <= SeenBy(run, moves, t, k + 1)
  {
    forall j | j in SeenBy(run, moves, t, k) ensures j in SeenBy(run, moves, t, k + 1) {
      var i :| Since(moves, t, k) <= i <= k && EmptyAt(run[i], j);
      assert SeenEmpty(run, Since(moves, t, k + 1), k + 1, j);
    }
  }

  lemma SeenNow(run: seq<State>, moves: seq<Move<Action>>, t: nat, k: nat, j: nat)
    requires |run| == |moves| + 1 && k <= |moves| && EmptyAt(run[k], j) && run[k].Width() == run[0].Width()
    ensures j in SeenBy(run, moves, t, k)
  {
    SinceBefore(moves, t, k);
    assert SeenEmpty(run, Since(moves, t, k), k, j);
  }

  ghost predicate AllKnow(run: seq<State>, moves: seq<Move<Action>>, k: nat)
    requires |run| == |moves| + 1 && k <= |moves|
  {
    forall t :: 0 <= t < |run[k].threads| ==> Knows(run[k], run[k].threads[t], SeenBy(run, moves, t, k))
  }

  /** Places that say nothing about what was seen. */
  predicate Resting(pc: Pc) {
    pc.Idle? || pc.PutEnter? || pc.GetEnter? || pc.PutResync? || pc.GetResync? || pc.EnqConfirm?
  }

  lemma RestKnows(s: State, th: Thread, seen: set<nat>)
    requires th.index < s.Width() && Resting(th.pc)
    ensures Knows(s, th, seen)
  {
  }

  /** The thread that moves, ... */
  lemma OwnKnows(run: seq<State>, moves: seq<Move<Action>>, events: seq<Event>, k: nat)
    requires MovesOn(run, moves, events, k) && run[k].Width() == run[0].Width()
    requires var t := moves[k].t;
             t < |run[k].threads| && Knows(run[k], run[k].threads[t], SeenBy(run, moves, t, k))
    ensures var t := moves[k].t;
            t < |run[k + 1].threads| && Knows(run[k + 1], run[k + 1].threads[t], SeenBy(run, moves, t, k + 1))
  {
    var t, act, s, s1 := moves[k].t, moves[k].act, run[k], run[k + 1];
    assert ThreadOk(s1, s1.threads[t]);
    if act.Go? && !Writing(s.threads[t].pc) {
      OwnLookKnows(run, moves, events, k);
    } else {
      if act.Go? { WriteRests(s, t, act); }
      RestKnows(s1, s1.threads[t], SeenBy(run, moves, t, k + 1));
    }
  }

  lemma OwnLookKnows(run: seq<State>, moves: seq<Move<Action>>, events: seq<Event>, k: nat)
    requires MovesOn(run, moves, events, k) && run[k].Width() == run[0].Width() && moves[k].act.Go?
    requires var t := moves[k].t;
             && t < |run[k].threads| && Knows(run[k], run[k].threads[t], SeenBy(run, moves, t, k))
             && !Writing(run[k].threads[t].pc)
    ensures var t := moves[k].t;
            t < |run[k + 1].threads| && Knows(run[k + 1], run[k + 1].threads[t], SeenBy(run, moves, t, k + 1))
  {
    var t, act, s, s1 := moves[k].t, moves[k].act, run[k], run[k + 1];
    var th, seen := s.threads[t], SeenBy(run, moves, t, k);
    assert ThreadOk(s, th) && SubOk(s.subs[th.index], s.putMax, s.depth);
    SeenGrows(run, moves, t, k);
    forall j | EmptyAt(s, j) ensures j in seen { SeenNow(run, moves, t, k, j); }
    LookKnows(s, th, seen, act.r, act.nodeFirst);
    LookMoves(s, t, act);
    KnowsMore(s, s1, s1.threads[t], seen, SeenBy(run, moves, t, k + 1));
  }

  lemma LookMoves(s: State, t: nat, act: Action)
    requires Enabled(s, t, act) && act.Go? && !Writing(s.threads[t].pc)
    ensures Step(s, t, act).0 == s.At(t, Look(s, s.threads[t], act.r, act.nodeFirst))
  {
  }

  lemma WriteRests(s: State, t: nat, act: Action)
    requires Enabled(s, t, act) && act.Go? && Writing(s.threads[t].pc)
    ensures Resting(Step(s, t, act).0.threads[t].pc)
  {
  }

  /** ... and the others. */
  lemma OtherKnows(run: seq<State>, moves: seq<Move<Action>>, events: seq<Event>, k: nat, u: nat)
    requires MovesOn(run, moves, events, k) && u != moves[k].t
    requires u < |run[k].threads| && Knows(run[k], run[k].threads[u], SeenBy(run, moves, u, k))
    ensures u < |run[k + 1].threads| && Knows(run[k + 1], run[k + 1].threads[u], SeenBy(run, moves, u, k + 1))
  {
    StepTold(run[k], moves[k].t, moves[k].act);
    SeenGrows(run, moves, u, k);
    KnowsMore(run[k], run[k + 1], run[k].threads[u], SeenBy(run, moves, u, k), SeenBy(run, moves, u, k + 1));
  }

  lemma AllKnowOn(run: seq<State>, moves: seq<Move<Action>>, events: seq<Event>, k: nat)
    requires MovesOn(run, moves, events, k) && run[k].Width() == run[0].Width() && AllKnow(run, moves, k)
    ensures AllKnow(run, moves, k + 1)
  {
    var k1 := k + 1;
    OwnKnows(run, moves, events, k);
    forall u | 0 <= u < |run[k1].threads| ensures Knows(run[k1], run[k1].threads[u], SeenBy(run, moves, u, k1)) {
      if u != moves[k].t { OtherKnows(run, moves, events, k, u); }
    }
  }

  lemma {:induction false} KnowsAt(width: nat, depth: nat, n: nat, run: seq<State>, moves: seq<Move<Action>>,
                                   events: seq<Event>, k: nat)
    requires IsRunOf(width, depth, n, run, moves, events) && width >= 1 && depth >= 1 && k <= |moves|
    ensures AllKnow(run, moves, k)
  {
    if k > 0 {
      KnowsAt(width, depth, n, run, moves, events, k - 1);
      InvAt(width, depth, n, run, moves, events, k - 1);
      ChainAt(run, moves, events, Makes, k - 1);
      StepKeeps(run[k - 1], moves[k - 1].t, moves[k - 1].act);
      AllKnowOn(run, moves, events, k - 1);
    }
  }

  /** Over every run: a dequeue that answers that there is nothing has, since it was called, seen every sub-queue
      with nothing confirmed in it - unless the descriptor it went by was torn, its count older than its
      node. */
  lemma EmptySeen(width: nat, depth: nat, n: nat, run: seq<State>, moves: seq<Move<Action>>, events: seq<Event>, k: nat)
    requires IsRunOf(width, depth, n, run, moves, events) && width >= 1 && depth >= 1
    requires k < |moves| && events[k].Empty?
    ensures moves[k].t < |run[k].threads|
    ensures var pc := run[k].threads[moves[k].t].pc;
            pc.DeqNext? && (pc.count < pc.head ||
              forall j :: 0 <= j < width ==> SeenEmpty(run, Since(moves, moves[k].t, k), k, j))
  {
    KnowsAt(width, depth, n, run, moves, events, k);
    InvAt(width, depth, n, run, moves, events, k);
    ChainAt(run, moves, events, Makes, k);
    var t := moves[k].t;
    assert Knows(run[k], run[k].threads[t], SeenBy(run, moves, t, k));
    EmptyAtTail(run[k], t, moves[k].act);
    if AllSeen(run[k], SeenBy(run, moves, t, k)) {
      forall j | 0 <= j < width ensures SeenEmpty(run, Since(moves, t, k), k, j) {
        assert j in SeenBy(run, moves, t, k);
      }
    }
  }

  lemma EmptyAtTail(s: State, t: nat, act: Action)
    requires Enabled(s, t, act) && Step(s, t, act).1.Empty?
    ensures var pc := s.threads[t].pc; pc.DeqNext? && pc.head == pc.tail
  {
  }

  /** Over every run: an item is taken by a count inside the get window, or by a dequeue that has, since it was
      called, seen every sub-queue with nothing confirmed in it. */
  lemma TakenInside(width: nat, depth: nat, n: nat, run: seq<State>, moves: seq<Move<Action>>, events: seq<Event>,
                    k: nat)
    requires IsRunOf(width, depth, n, run, moves, events) && width >= 1 && depth >= 1
    requires k < |moves| && events[k].Taken?
    ensures var s, i := run[k], events[k].j;
            i < s.Width() && (s.subs[i].get.count < s.getMax ||
              forall j :: 0 <= j < width ==> SeenEmpty(run, Since(moves, moves[k].t, k), k, j))
  {
    KnowsAt(width, depth, n, run, moves, events, k);
    InvAt(width, depth, n, run, moves, events, k);
    ChainAt(run, moves, events, Makes, k);
    var t := moves[k].t;
    TakenBySwing(run[k], t, moves[k].act);
    assert Knows(run[k], run[k].threads[t], SeenBy(run, moves, t, k)) && ThreadOk(run[k], run[k].threads[t]);
    if AllSeen(run[k], SeenBy(run, moves, t, k)) {
      forall j | 0 <= j < width ensures SeenEmpty(run, Since(moves, t, k), k, j) {
        assert j in SeenBy(run, moves, t, k);
      }
    }
  }

  lemma TakenBySwing(s: State, t: nat, act: Action)
    requires Enabled(s, t, act) && Step(s, t, act).1.Taken?
    ensures var th := s.threads[t];
            th.pc.DeqSwing? && Step(s, t, act).1.j == th.index && s.subs[th.index].get.count == th.pc.count
  {
  }
}
