/** What the calls of the elastic LaW queue come to, at access level: every enqueue links its own value,
    exactly once; every dequeue takes one item or answers that there is nothing. */
module LawAnswers {
  import opened Descriptor
  import opened History
  import opened LateralWindows
  import opened LawSteps
  import opened LawFifo
  import opened Schedule

  function Called(act: Action): Maybe<Call> {
    match act
    case CallEnqueue(v, _) => Yes(Enq(v))
    case CallDequeue(_) => Yes(Deq)
    case _ => No
  }

  function EnqValue(pc: Pc): Maybe<int> {
    match pc
    case PutEnter(v) => Yes(v)
    case PutRead(v) => Yes(v)
    case PutReadNode(v, _) => Yes(v)
    case PutReadCount(v, _) => Yes(v)
    case PutCheck(v, _, _) => Yes(v)
    case PutShift(v) => Yes(v)
    case ShiftDepth(v) => Yes(v)
    case ShiftWidth(v, _) => Yes(v)
    case ShiftCheck(v, _, _) => Yes(v)
    case ShiftNext(v, _, _) => Yes(v)
    case ShiftLink(v, _, _) => Yes(v)
    case ShiftReread(v) => Yes(v)
    case ShiftMove(v) => Yes(v)
    case PutResync(v) => Yes(v)
    case EnqRecheck(v, _, _) => Yes(v)
    case EnqNext(v, _, _) => Yes(v)
    case EnqLink(v, _, _) => Yes(v)
    case EnqHelp(v, _, _) => Yes(v)
    case _ => No
  }

  /** What a thread waits for: an enqueue whose node is not linked yet, or a dequeue. */
  function WaitsAt(pc: Pc): Maybe<Call> {
    if pc.Idle? || pc.EnqConfirm? then No
    else match EnqValue(pc) case Yes(v) => Yes(Enq(v)) case No => Yes(Deq)
  }

  function Waits(s: State, t: nat): Maybe<Call> { if t < |s.threads| then WaitsAt(s.threads[t].pc) else No }

  lemma EnqueueLooksOn(s: State, th: Thread, r: nat, nodeFirst: bool)
    requires Named(s, th) && EnqValue(th.pc).Yes?
    ensures EnqValue(Look(s, th, r, nodeFirst).pc) == EnqValue(th.pc)
  {
  }

  lemma TailLooksOn(s: State, th: Thread, nodeFirst: bool)
    requires Named(s, th) && WaitsAt(th.pc) == Yes(Deq)
    ensures var pc := LookDeq(s, th, nodeFirst).pc; WaitsAt(pc) == Yes(Deq) || (th.pc.DeqNext? && pc.Idle?)
  {
  }

  lemma DequeueLooksOn(s: State, th: Thread, r: nat, nodeFirst: bool)
    requires Named(s, th) && WaitsAt(th.pc) == Yes(Deq)
    ensures var pc := Look(s, th, r, nodeFirst).pc; WaitsAt(pc) == Yes(Deq) || (th.pc.DeqNext? && pc.Idle?)
  {
    TailLooksOn(s, th, nodeFirst);
  }

  /** What a step does to what its thread waits for, as its event tells. */
  ghost predicate WaitsTold(s: State, t: nat, act: Action) requires Enabled(s, t, act) {
    var (s1, e) := Step(s, t, act);
    && Fits(Move(t, act), e, Waits(s, t), Called, IsAnswer, Answering) && |s1.threads| == |s.threads|
    && Waits(s1, t) == if Called(act).Yes? then Called(act) else if IsAnswer(e) then No else Waits(s, t)
  }

  lemma SwapTold(s: State, t: nat, act: Action)
    requires Enabled(s, t, act) && act.Go? && Swapping(s.threads[t].pc)
    ensures WaitsTold(s, t, act)
  {
  }

  lemma WriteTold(s: State, t: nat, act: Action)
    requires Enabled(s, t, act) && act.Go? && Writing(s.threads[t].pc) && !Swapping(s.threads[t].pc)
    ensures WaitsTold(s, t, act)
  {
  }

  lemma LookTold(s: State, t: nat, act: Action)
    requires Enabled(s, t, act) && act.Go? && !Writing(s.threads[t].pc)
    ensures WaitsTold(s, t, act)
  {
    var th := s.threads[t];
    ReadOnly(s, t, act);
    if WaitsAt(th.pc) == Yes(Deq) { DequeueLooksOn(s, th, act.r, act.nodeFirst); }
    else { EnqueueLooksOn(s, th, act.r, act.nodeFirst); }
  }

  lemma StepTold(s: State, t: nat, act: Action)
    requires Enabled(s, t, act)
    ensures WaitsTold(s, t, act)
  {
    if act.Go? {
      if Swapping(s.threads[t].pc) { SwapTold(s, t, act); }
      else if Writing(s.threads[t].pc) { WriteTold(s, t, act); }
      else { LookTold(s, t, act); }
    }
  }

  /** Over every run, whatever the widths: each enqueue called links its own value, exactly once, and each
      dequeue called takes one item or answers that there is nothing, before its thread calls again;
      nothing else is ever linked or taken.  A thread that is back has its answer. */
  lemma EachAnswered(maxWidth: Width, width: nat, depth: nat, n: nat, run: seq<State>, moves: seq<Move<Action>>,
                     events: seq<Event>)
    requires IsRunOf(maxWidth, width, depth, n, run, moves, events)
    ensures Answered(moves, events, Called, IsAnswer, Answering)
    ensures forall t :: 0 <= t < n && t < |run[|moves|].threads| && run[|moves|].threads[t].pc.Idle? ==>
        Waiting(moves, events, Called, IsAnswer, t) == No
  {
    forall s, m, s1, e | Makes(s, m, s1, e)
      ensures Fits(m, e, Waits(s, m.t), Called, IsAnswer, Answering)
      ensures forall u :: u != m.t ==> Waits(s1, u) == Waits(s, u)
      ensures Waits(s1, m.t) == if Called(m.act).Yes? then Called(m.act) else if IsAnswer(e) then No else Waits(s, m.t)
    {
      StepTold(s, m.t, m.act);
      OthersUnmoved(s, m.t, m.act);
    }
    AllAnswered(run, moves, events, Makes, Waits, Called, IsAnswer, Answering);
  }

  // ---------------------------------------------------------------------------------------------
  // What is so when a call ends

  /** A dequeue answers that there is nothing only where no node was linked after the put node, ... */
  lemma EmptyAtEnd(s: State, t: nat, act: Action)
    requires Inv(s) && Enabled(s, t, act) && Step(s, t, act).1.Empty?
    ensures var i, th := Step(s, t, act).1.k, s.threads[t];
            && i == th.index < |s.subs| && th.pc.DeqNext? && th.pc.head == s.subs[i].put.node
            && |s.subs[i].list| == s.subs[i].put.node + 1
  {
    var th := s.threads[t];
    assert ThreadOk(s, th) && SubOk(s.wins, s.tail, th.index, s.subs[th.index]);
  }

  /** ... and where the get side is in order, only where its sub-queue holds nothing. */
  lemma EmptyHolds(late: bool, s: State, t: nat, act: Action)
    requires GetInv(late, s) && Enabled(s, t, act) && Step(s, t, act).1.Empty?
    ensures var i := Step(s, t, act).1.k; i < |s.subs| && |s.subs[i].list| == s.subs[i].get.node + 1
  {
    EmptyAtEnd(s, t, act);
    var th := s.threads[t];
    assert GetFacts(s, th) && GetOk(late, s.wins, th.index, s.subs[th.index]);
  }

  /** An enqueue leaves its node confirmed, unless the count it had read was not that of the node. */
  lemma ConfirmSettles(s: State, t: nat, act: Action)
    requires Inv(s) && Enabled(s, t, act) && act.Go? && s.threads[t].pc.EnqConfirm?
    ensures var th, s1 := s.threads[t], Step(s, t, act).0;
            && s1.threads[t].pc.Idle? && th.index < |s1.subs| == |s.subs|
            && (th.pc.node < s1.subs[th.index].put.node ||
                (s1.subs == s.subs && s.subs[th.index].put.node == th.pc.node &&
                 s.subs[th.index].put.count != th.pc.count))
  {
    var th := s.threads[t];
    assert ThreadOk(s, th) && SubOk(s.wins, s.tail, th.index, s.subs[th.index]);
  }

  /** Over every run, up to the answer, that stays on track or whose windows never return (LawFifo). */
  lemma EmptyInOrder(late: bool, maxWidth: Width, width: nat, depth: nat, n: nat, run: seq<State>,
                     moves: seq<Move<Action>>, events: seq<Event>)
    requires IsRunOf(maxWidth, width, depth, n, run, moves, events) && RunsOrderly(late, run, moves)
    requires 1 <= width <= maxWidth && depth >= 1 && moves != [] && events[|moves| - 1].Empty?
    ensures var s, i := run[|moves| - 1], events[|moves| - 1].k;
            i < |s.subs| && |s.subs[i].list| == s.subs[i].get.node + 1
  {
    var k := |moves| - 1;
    ChainPrefix(run, moves, events, Makes);
    PrefixOrderly(late, run, moves, events);
    ReachableInOrder(late, maxWidth, width, depth, n, run[..k + 1], moves[..k], events[..k]);
    EmptyHolds(late, run[k], moves[k].t, moves[k].act);
  }
}
