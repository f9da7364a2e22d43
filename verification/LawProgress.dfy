/** Enqueuing in the elastic LaW queue is lock-free, while width and depth change: over every run, the
    accesses made by enqueues are bounded by the enqueues called and those that took effect.  While the
    lateral and the put side of the sub-queues do not change, each enqueue has only so many steps to
    take before it changes them or is done; and they change at most four times for every node linked,
    and once more.  Nothing of the kind holds of dequeues (LawHops). */
module LawProgress {
  import opened Accounting
  import opened Descriptor
  import opened History
  import opened Search
  import opened LateralWindows
  import opened LawSteps
  import opened LawFifo
  import opened LawAnswers
  import opened Schedule

  function Limit(maxWidth: Width): nat { 3 * maxWidth + 25 }

  /** Steps from the start of a search. */
  function Again(maxWidth: Width): nat { 3 * maxWidth + 17 }

  predicate OnPutSide(pc: Pc) {
    pc.PutEnter? || pc.PutRead? || pc.PutReadNode? || pc.PutReadCount? || pc.PutCheck? || pc.PutShift? ||
        pc.ShiftDepth? || pc.ShiftWidth? || pc.ShiftCheck? || pc.ShiftNext? || pc.ShiftLink? || pc.ShiftReread? ||
        pc.ShiftMove? || pc.PutResync? || pc.EnqRecheck? || pc.EnqNext? || pc.EnqLink? || pc.EnqHelp? || pc.EnqConfirm?
  }

  /** Hops still to make before the window is shifted. */
  function Left(w: nat, th: Thread): nat {
    (if th.random <= RANDOM_HOPS then RANDOM_HOPS - th.random else 0) + (if th.hops <= w then w - th.hops else 0)
  }

  /** All that the enqueue has read is still so. */
  predicate Current(s: State, th: Thread)
    requires th.index < |s.subs| && th.win < |s.wins|
  {
    var x := s.subs[th.index];
    match th.pc
    case PutReadNode(_, count) => th.win == s.tail && count == x.put.count
    case PutReadCount(_, node) => th.win == s.tail && node == x.put.node
    case PutCheck(_, node, count) => th.win == s.tail && x.put == Desc(node, count)
    case ShiftLink(_, _, _) => th.win == s.tail && |s.wins| == th.win + 1
    case EnqRecheck(_, node, count) => x.put == Desc(node, count) && count < s.wins[th.win].max
    case EnqNext(_, node, count) => x.put == Desc(node, count) && count < s.wins[th.win].max
    case EnqLink(_, node, _) => node + 1 == |x.list|
    case EnqHelp(_, node, count) => x.put == Desc(node, count)
    case EnqConfirm(_, _) => true
    case PutEnter(_) => true
    case PutResync(_) => true
    case _ => th.win == s.tail
  }

  function Near(w: nat, maxWidth: Width, th: Thread): nat {
    match th.pc
    case PutEnter(_) => Again(maxWidth)
    case PutResync(_) => Again(maxWidth)
    case PutRead(_) => 3 * Left(w, th) + 10
    case PutReadNode(_, _) => 3 * Left(w, th) + 9
    case PutReadCount(_, _) => 3 * Left(w, th) + 9
    case PutCheck(_, _, _) => 3 * Left(w, th) + 8
    case PutShift(_) => 7
    case ShiftDepth(_) => 6
    case ShiftWidth(_, _) => 5
    case ShiftCheck(_, _, _) => 4
    case ShiftNext(_, _, _) => 3
    case ShiftReread(_) => 2
    case EnqRecheck(_, _, _) => 3
    case EnqNext(_, _, _) => 2
    case _ => 1
  }

  /** What may be wasted on outdated reads before the enqueue starts over. */
  function Far(pc: Pc): nat {
    match pc
    case PutRead(_) => 6
    case PutReadNode(_, _) => 5
    case PutReadCount(_, _) => 5
    case PutCheck(_, _, _) => 4
    case PutShift(_) => 8
    case ShiftDepth(_) => 7
    case ShiftWidth(_, _) => 6
    case ShiftCheck(_, _, _) => 5
    case ShiftNext(_, _, _) => 4
    case ShiftLink(_, _, _) => 3
    case ShiftReread(_) => 2
    case EnqRecheck(_, _, _) => 3
    case EnqNext(_, _, _) => 2
    case _ => 1
  }

  /** An upper bound on the steps an enqueue can take before the put side changes. */
  function Work(s: State, th: Thread): nat
    requires th.index < |s.subs| && th.win < |s.wins|
  {
    if !OnPutSide(th.pc) then 0
    else if Current(s, th) then Near(s.wins[th.win].width, s.maxWidth, th)
    else Again(s.maxWidth) + Far(th.pc)
  }

  lemma WorkBounded(s: State, th: Thread)
    requires LateralOk(s) && ThreadOk(s, th)
    ensures Work(s, th) <= Limit(s.maxWidth)
  {
  }

  ghost predicate SamePut(x: Sub, y: Sub) { y.list == x.list && y.put == x.put }

  ghost predicate SameMemory(s: State, s1: State) {
    && s1.wins == s.wins && s1.tail == s.tail && s1.maxWidth == s.maxWidth && |s1.subs| == |s.subs|
    && forall i {:trigger s1.subs[i]} :: 0 <= i < |s.subs| ==> SamePut(s.subs[i], s1.subs[i])
  }

  lemma SameWork(s: State, s1: State, th: Thread)
    requires SameMemory(s, s1) && th.index < |s.subs| && th.win < |s.wins|
    ensures Work(s1, th) == Work(s, th)
  {
    assert SamePut(s.subs[th.index], s1.subs[th.index]);
  }

  // ---------------------------------------------------------------------------------------------
  // Reads

  ghost predicate Worked(s: State, th: Thread, th1: Thread) {
    th.index < |s.subs| && th.win < |s.wins| && th1.index < |s.subs| && th1.win < |s.wins| && Work(s, th1) < Work(s, th)
  }

  ghost predicate Looking(s: State, th: Thread) {
    LateralOk(s) && ThreadOk(s, th) && Named(s, th) && SubOk(s.wins, s.tail, th.index, s.subs[th.index])
  }

  lemma ReadWorks(s: State, th: Thread, r: nat, nodeFirst: bool)
    requires Looking(s, th)
    requires th.pc.PutEnter? || th.pc.PutRead? || th.pc.PutReadNode? || th.pc.PutReadCount? || th.pc.PutResync?
    ensures Worked(s, th, Look(s, th, r, nodeFirst))
  {
  }

  lemma CheckWorks(s: State, th: Thread, r: nat, nodeFirst: bool)
    requires Looking(s, th) && th.pc.PutCheck?
    ensures Worked(s, th, Look(s, th, r, nodeFirst))
  {
  }

  lemma ShiftWorks(s: State, th: Thread, r: nat, nodeFirst: bool)
    requires Looking(s, th) && Shifting(th.pc) && !th.pc.ShiftLink? && !th.pc.ShiftMove?
    ensures Worked(s, th, Look(s, th, r, nodeFirst))
  {
  }

  lemma EnqWorks(s: State, th: Thread, r: nat, nodeFirst: bool)
    requires Looking(s, th) && (th.pc.EnqRecheck? || th.pc.EnqNext?)
    ensures Worked(s, th, Look(s, th, r, nodeFirst))
  {
  }

  /** A read brings an enqueue nearer, whatever it reads. */
  lemma LookWorks(s: State, th: Thread, r: nat, nodeFirst: bool)
    requires Looking(s, th) && OnPutSide(th.pc) && !Writing(th.pc)
    ensures Worked(s, th, Look(s, th, r, nodeFirst))
  {
    var pc := th.pc;
    if pc.PutCheck? { CheckWorks(s, th, r, nodeFirst); }
    else if Shifting(pc) { ShiftWorks(s, th, r, nodeFirst); }
    else if pc.EnqRecheck? || pc.EnqNext? { EnqWorks(s, th, r, nodeFirst); }
    else { ReadWorks(s, th, r, nodeFirst); }
  }

  // ---------------------------------------------------------------------------------------------
  // How often the put side changed

  function Weights(subs: seq<Sub>): seq<nat> {
    seq(|subs|, i requires 0 <= i < |subs| => |subs[i].list| + subs[i].put.node)
  }

  /** Grows with every change of the put side. */
  function Changes(s: State): nat { Sum(Weights(s.subs)) + |s.wins| + s.tail }

  lemma SubWrites(s: State, i: nat, y: Sub)
    requires i < |s.subs| && |y.list| + y.put.node == |s.subs[i].list| + s.subs[i].put.node + 1
    ensures Changes(s.SetSub(i, y)) == Changes(s) + 1
  {
    SumUpdate(Weights(s.subs), i, |y.list| + y.put.node);
    assert Weights(s.subs[i := y]) == Weights(s.subs)[i := |y.list| + y.put.node];
  }

  /** 1 for an access of an enqueue. */
  function EnqAccess(s: State, t: nat, act: Action): nat {
    if act.Go? && t < |s.threads| && OnPutSide(s.threads[t].pc) then 1 else 0
  }

  function EnqCall(act: Action): nat { if act.CallEnqueue? then 1 else 0 }

  function Cost(s: State, t: nat, act: Action): int {
    (if act.CallEnqueue? then Limit(s.maxWidth) else 0) - EnqAccess(s, t, act)
  }

  ghost predicate Placed(s: State, th: Thread) { th.index < |s.subs| && th.win < |s.wins| }

  /** What a step came to: the put side changed, or only the thread moved, by at most `cost`. */
  ghost predicate Paid(s: State, t: nat, s1: State, cost: int) {
    && t < |s.threads| == |s1.threads| && Placed(s, s.threads[t]) && Placed(s1, s1.threads[t])
    && (if SameMemory(s, s1) then Work(s1, s1.threads[t]) <= Work(s, s.threads[t]) + cost
        else Changes(s1) >= Changes(s) + 1 && -1 <= cost <= 0 && Work(s, s.threads[t]) + cost >= 0)
  }

  ghost predicate Grew(s: State, s1: State) { !SameMemory(s, s1) && Changes(s1) == Changes(s) + 1 }

  lemma SubPays(s: State, t: nat, i: nat, y: Sub, th: Thread)
    requires i < |s.subs| && t < |s.threads| && |y.list| + y.put.node == |s.subs[i].list| + s.subs[i].put.node + 1
    ensures Grew(s, s.SetSub(i, y).At(t, th))
  {
    SubWrites(s, i, y);
    var s1 := s.SetSub(i, y).At(t, th);
    assert s1.subs[i] == y && !SamePut(s.subs[i], s1.subs[i]);
  }

  /** Where a thread goes after it tried to swap a put descriptor. */
  function AfterSwap(pc: Pc): Pc requires pc.EnqHelp? || pc.EnqConfirm? || pc.DeqHelp? {
    if pc.EnqHelp? then PutEnter(pc.v) else if pc.DeqHelp? then GetLoad else Idle
  }

  function SwapCost(pc: Pc): int { if pc.DeqHelp? then 0 else -1 }

  lemma SwapFails(s: State, t: nat)
    requires Inv(s) && t < |s.threads| && Swapping(s.threads[t].pc) && s.threads[t].index < |s.subs|
    requires var th := s.threads[t]; s.subs[th.index].put != Desc(th.pc.node, th.pc.count)
    ensures var th := s.threads[t];
            Paid(s, t, s.At(t, th.(contention := true).To(AfterSwap(th.pc))), SwapCost(th.pc))
  {
    assert ThreadOk(s, s.threads[t]);
  }

  lemma SwapPays(s: State, t: nat, win: nat)
    requires Inv(s) && t < |s.threads| && Swapping(s.threads[t].pc) && win < |s.wins|
    requires s.threads[t].index < |s.subs|
    ensures var th := s.threads[t];
            Paid(s, t, SwapPut(s, t, win, th.pc.node, th.pc.count, AfterSwap(th.pc)), SwapCost(th.pc))
  {
    var th := s.threads[t];
    var x := s.subs[th.index];
    if x.put == Desc(th.pc.node, th.pc.count) {
      assert ThreadOk(s, th);
      SubPays(s, t, th.index, Confirmed(x, NextRow(s.wins[win], th.pc.count)), th.To(AfterSwap(th.pc)));
    } else {
      SwapFails(s, t);
    }
  }

  lemma LinkPays(s: State, t: nat)
    requires Inv(s) && t < |s.threads| && s.threads[t].pc.EnqLink?
    ensures var th := s.threads[t];
            th.index < |s.subs| && Paid(s, t, LinkNode(s, t, th.pc.v, th.pc.node, th.pc.count), -1)
  {
    var th := s.threads[t];
    var x := s.subs[th.index];
    assert ThreadOk(s, th);
    if th.pc.node == |x.list| - 1 {
      SubPays(s, t, th.index, x.(list := x.list + [th.pc.v]), th.To(EnqConfirm(th.pc.node, th.pc.count)));
    }
  }

  lemma LateralPays(s: State, t: nat, act: Action)
    requires Inv(s) && Enabled(s, t, act) && act.Go? && (s.threads[t].pc.ShiftLink? || s.threads[t].pc.ShiftMove?)
    ensures Paid(s, t, Step(s, t, act).0, -1)
  {
    assert ThreadOk(s, s.threads[t]);
  }

  lemma SwapStepPays(s: State, t: nat, act: Action)
    requires Inv(s) && Enabled(s, t, act) && act.Go? && Swapping(s.threads[t].pc)
    ensures Paid(s, t, Step(s, t, act).0, SwapCost(s.threads[t].pc))
  {
    SwapReady(s, t);
    SwapPays(s, t, RowWindow(s.threads[t]));
  }

  lemma LookPays(s: State, t: nat, act: Action)
    requires Inv(s) && Enabled(s, t, act) && act.Go? && OnPutSide(s.threads[t].pc) && !Writing(s.threads[t].pc)
    ensures Paid(s, t, Step(s, t, act).0, -1)
  {
    var th := s.threads[t];
    assert ThreadOk(s, th) && SubOk(s.wins, s.tail, th.index, s.subs[th.index]);
    LookWorks(s, th, act.r, act.nodeFirst);
    ReadOnly(s, t, act);
    SameWork(s, Step(s, t, act).0, Look(s, th, act.r, act.nodeFirst));
  }

  /** Dequeues, calls and settings leave the put side as it is, but for the help given to an enqueue. */
  lemma OtherPays(s: State, t: nat, act: Action)
    requires Inv(s) && Enabled(s, t, act) && (act.Go? ==> !OnPutSide(s.threads[t].pc) && !s.threads[t].pc.DeqHelp?)
    ensures Paid(s, t, Step(s, t, act).0, Cost(s, t, act))
  {
    var th := s.threads[t];
    assert ThreadOk(s, th);
    StepKeeps(s, t, act);
    var s1 := Step(s, t, act).0;
    assert ThreadOk(s1, s1.threads[t]);
    if act.Go? {
      DequeueStays(s, t, act);
    } else if act.CallEnqueue? {
      WorkBounded(s1, s1.threads[t]);
    }
  }

  lemma DequeueStays(s: State, t: nat, act: Action)
    requires Inv(s) && Enabled(s, t, act) && act.Go? && !OnPutSide(s.threads[t].pc) && !s.threads[t].pc.DeqHelp?
    ensures var s1 := Step(s, t, act).0;
            SameMemory(s, s1) && t < |s1.threads| && (s1.crashed || !OnPutSide(s1.threads[t].pc))
    ensures var s1 := Step(s, t, act).0; t < |s1.threads| && (s1.crashed ==> s1.threads == s.threads)
  {
    if Writing(s.threads[t].pc) {
      GetWrites(s, t, act);
    } else {
      ReadOnly(s, t, act);
      GetOffPutSide(s, s.threads[t], act.r, act.nodeFirst);
    }
  }

  lemma GetWrites(s: State, t: nat, act: Action)
    requires Inv(s) && Enabled(s, t, act) && act.Go? && (s.threads[t].pc.HeadMove? || s.threads[t].pc.DeqSwing?)
    ensures var s1 := Step(s, t, act).0;
            && SameMemory(s, s1) && t < |s1.threads| && (s1.crashed || !OnPutSide(s1.threads[t].pc))
            && (s1.crashed ==> s1.threads == s.threads)
  {
  }

  lemma StepPays(s: State, t: nat, act: Action)
    requires Inv(s) && Enabled(s, t, act)
    ensures Paid(s, t, Step(s, t, act).0, Cost(s, t, act))
  {
    var pc := s.threads[t].pc;
    if act.Go? && Swapping(pc) { SwapStepPays(s, t, act); }
    else if act.Go? && pc.EnqLink? { LinkPays(s, t); }
    else if act.Go? && (pc.ShiftLink? || pc.ShiftMove?) { LateralPays(s, t, act); }
    else if act.Go? && OnPutSide(pc) { LookPays(s, t, act); }
    else { OtherPays(s, t, act); }
  }

  // ---------------------------------------------------------------------------------------------
  // Adding up over all threads

  ghost function Works(s: State): seq<nat>
    requires Inv(s)
  {
    seq(|s.threads|, t requires 0 <= t < |s.threads| => Own(s, t))
  }

  ghost function Own(s: State, t: nat): nat
    requires Inv(s) && t < |s.threads|
  {
    assert ThreadOk(s, s.threads[t]);
    Work(s, s.threads[t])
  }

  ghost function Total(s: State): nat requires Inv(s) { Sum(Works(s)) }

  lemma TotalBounded(s: State)
    requires Inv(s)
    ensures Total(s) <= Limit(s.maxWidth) * |s.threads|
    ensures forall t :: 0 <= t < |s.threads| ==> Own(s, t) <= Total(s)
  {
    forall t | 0 <= t < |s.threads| ensures Works(s)[t] <= Limit(s.maxWidth) {
      assert ThreadOk(s, s.threads[t]);
      WorkBounded(s, s.threads[t]);
    }
    SumBounded(Works(s), Limit(s.maxWidth));
    EachBelowSum(Works(s));
    assert forall t :: 0 <= t < |s.threads| ==> Works(s)[t] == Own(s, t);
  }

  lemma QuietTotal(s: State, t: nat, s1: State, cost: int)
    requires Inv(s) && Inv(s1) && Paid(s, t, s1, cost) && SameMemory(s, s1) && Unmoved(s, s1, t)
    ensures Total(s1) <= Total(s) + cost
  {
    forall u | 0 <= u < |s.threads| ensures Works(s1)[u] <= Works(s)[u] + if u == t then cost else 0 {
      assert ThreadOk(s, s.threads[u]) && ThreadOk(s1, s1.threads[u]);
      if u != t { SameWork(s, s1, s.threads[u]); }
    }
    SumChanges(Works(s), Works(s1), t, cost);
  }

  /** Accesses made and work left are covered by the changes of the put side and the enqueues called. */
  ghost predicate Covered(s: State, start: nat, accesses: nat, changes: nat, calls: nat) {
    Inv(s) && start + changes <= Changes(s) &&
        accesses + Total(s) <= Allowance(Limit(s.maxWidth), |s.threads|, changes, calls)
  }

  lemma CoveredQuiet(s: State, t: nat, s1: State, cost: int, start: nat, accesses: nat, changes: nat, calls: nat,
                     access: nat, call: nat)
    requires Covered(s, start, accesses, changes, calls) && SameMemory(s, s1) && Kept(s, s1) && Unmoved(s, s1, t)
    requires Paid(s, t, s1, cost) && call <= 1 && cost == (if call == 1 then Limit(s.maxWidth) else 0) - access
    ensures Covered(s1, start, accesses + access, changes, calls + call)
  {
    AllowanceGrows(Limit(s.maxWidth), |s.threads|, changes, calls);
    SameChanges(s, s1);
    QuietTotal(s, t, s1, cost);
  }

  lemma CoveredChange(s: State, t: nat, s1: State, cost: int, start: nat, accesses: nat, changes: nat, calls: nat)
    requires Covered(s, start, accesses, changes, calls) && !SameMemory(s, s1) && Kept(s, s1) && Paid(s, t, s1, cost)
    ensures -1 <= cost <= 0 && Covered(s1, start, accesses - cost, changes + 1, calls)
  {
    AllowanceGrows(Limit(s.maxWidth), |s.threads|, changes, calls);
    TotalBounded(s);
    TotalBounded(s1);
    assert Own(s, t) <= Total(s);
  }

  lemma CoveredStep(s: State, start: nat, accesses: nat, changes: nat, calls: nat, t: nat, act: Action)
    returns (changes1: nat)
    requires Covered(s, start, accesses, changes, calls) && Enabled(s, t, act)
    ensures Covered(Step(s, t, act).0, start, accesses + EnqAccess(s, t, act), changes1, calls + EnqCall(act))
  {
    var s1, cost := Step(s, t, act).0, Cost(s, t, act);
    StepKeeps(s, t, act);
    StepPays(s, t, act);
    OthersUnmoved(s, t, act);
    if SameMemory(s, s1) {
      changes1 := changes;
      CoveredQuiet(s, t, s1, cost, start, accesses, changes, calls, EnqAccess(s, t, act), EnqCall(act));
    } else {
      changes1 := changes + 1;
      CoveredChange(s, t, s1, cost, start, accesses, changes, calls);
    }
  }

  lemma SameChanges(s: State, s1: State)
    requires SameMemory(s, s1)
    ensures Changes(s1) == Changes(s)
  {
    forall i | 0 <= i < |s.subs| ensures Weights(s1.subs)[i] == Weights(s.subs)[i] {
      assert SamePut(s.subs[i], s1.subs[i]);
    }
    assert Weights(s1.subs) == Weights(s.subs);
  }

  // ---------------------------------------------------------------------------------------------
  // Nodes linked pay for all changes

  function Lengths(subs: seq<Sub>): seq<nat> {
    seq(|subs|, i requires 0 <= i < |subs| => if subs[i].list == [] then 0 else |subs[i].list| - 1)
  }

  function Nodes(s: State): nat { Sum(Lengths(s.subs)) }

  function Links(e: Event): nat { if e.Linked? then 1 else 0 }

  lemma NodesStep(s: State, t: nat, act: Action)
    requires Inv(s) && Enabled(s, t, act)
    ensures Nodes(Step(s, t, act).0) == Nodes(s) + Links(Step(s, t, act).1)
  {
    var (s1, e) := Step(s, t, act);
    if e.Linked? {
      assert e.i < |s.subs| && |s.subs[e.i].list| >= 1 by { LinkedHere(s, t, act); }
      SumUpdate(Lengths(s.subs), e.i, Lengths(s.subs)[e.i] + 1);
      LinkedHere(s, t, act);
      assert Lengths(s1.subs) == Lengths(s.subs)[e.i := Lengths(s.subs)[e.i] + 1];
    } else {
      SameLists(s, t, act);
      assert Lengths(s1.subs) == Lengths(s.subs);
    }
  }

  lemma LinkedHere(s: State, t: nat, act: Action)
    requires Inv(s) && Enabled(s, t, act) && Step(s, t, act).1.Linked?
    ensures var (s1, e) := Step(s, t, act);
            && e.i < |s.subs| == |s1.subs| && s.subs[e.i].list != []
            && s1.subs == s.subs[e.i := s1.subs[e.i]] && s1.subs[e.i].list == s.subs[e.i].list + [e.v]
  {
    assert ThreadOk(s, s.threads[t]) && SubOk(s.wins, s.tail, s.threads[t].index, s.subs[s.threads[t].index]);
  }

  lemma SameLists(s: State, t: nat, act: Action)
    requires Enabled(s, t, act) && !Step(s, t, act).1.Linked?
    ensures var s1 := Step(s, t, act).0;
            |s1.subs| == |s.subs| && forall i :: 0 <= i < |s.subs| ==> s1.subs[i].list == s.subs[i].list
  {
    if act.Go? && s.threads[t].pc.DeqSwing? {
      SwingSameLists(s, t, act);
    } else {
      var s1 := Step(s, t, act).0;
      assert s.threads[t].index < |s.subs|;
      forall i | 0 <= i < |s.subs| ensures |s1.subs| == |s.subs| && s1.subs[i].list == s.subs[i].list {
        if act.Go? && s.threads[t].pc.EnqLink? { LinkTells(s, t, act, i); } else { SilentTells(s, t, act, i); }
      }
    }
  }

  lemma SwingSameLists(s: State, t: nat, act: Action)
    requires Enabled(s, t, act) && act.Go? && s.threads[t].pc.DeqSwing?
    ensures var s1 := Step(s, t, act).0;
            |s1.subs| == |s.subs| && forall i :: 0 <= i < |s.subs| ==> s1.subs[i].list == s.subs[i].list
  {
  }

  /** Each window before the tail gave index 0 a row of its own, so it has that many nodes. */
  lemma {:induction false} WindowPaid(wins: seq<Win>, maxWidth: Width, tail: nat, x: Sub, k: nat) returns (a: nat)
    requires Lateral(wins, maxWidth) && wins[0].max == 0 && SubOk(wins, tail, 0, x) && k < tail
    ensures k <= a < |x.rows| && x.rows[a] == wins[k].max
    decreases k
  {
    if k == 0 {
      a := 0;
    } else {
      var b := WindowPaid(wins, maxWidth, tail, x, k - 1);
      assert Above(wins, k - 1, k) && Filled(wins, 0, x, k);
      assert HomeIn(wins, 0, wins[k].max, k);
      assert Home(wins, 0, wins[k].max);
      a :| 0 <= a < |x.rows| && x.rows[a] == wins[k].max;
    }
  }

  lemma {:induction false} WeightsBounded(wins: seq<Win>, tail: nat, subs: seq<Sub>, n: nat)
    requires n <= |subs|
    requires forall i {:trigger subs[i]} :: 0 <= i < |subs| ==> SubOk(wins, tail, i, subs[i])
    ensures Sum(Weights(subs[..n])) <= n + 2 * Sum(Lengths(subs[..n]))
    decreases n
  {
    if n > 0 {
      WeightsBounded(wins, tail, subs, n - 1);
      assert SubOk(wins, tail, n - 1, subs[n - 1]);
      assert subs[..n][..n - 1] == subs[..n - 1];
      assert Weights(subs[..n])[..n - 1] == Weights(subs[..n - 1]) &&
          Lengths(subs[..n])[..n - 1] == Lengths(subs[..n - 1]);
    }
  }

  /** Each node is linked and confirmed once, and each window linked and moved to once. */
  lemma ChangesBounded(s: State)
    requires Inv(s) && s.wins[0].max == 0
    ensures Changes(s) <= s.maxWidth + 4 * Nodes(s) + 4
  {
    WeightsBounded(s.wins, s.tail, s.subs, |s.subs|);
    assert s.subs[..|s.subs|] == s.subs;
    var x := s.subs[0];
    assert SubOk(s.wins, s.tail, 0, x);
    var a := WindowPaid(s.wins, s.maxWidth, s.tail, x, s.tail - 1);
    EachBelowSum(Lengths(s.subs));
    assert Lengths(s.subs)[0] == |x.list| - 1;
  }

  // ---------------------------------------------------------------------------------------------
  // Whole runs

  /** The accesses made by enqueues in the first k moves. */
  function EnqAccesses(run: seq<State>, moves: seq<Move<Action>>, k: nat): nat
    requires |run| == |moves| + 1 && k <= |moves|
  {
    if k == 0 then 0
    else EnqAccesses(run, moves, k - 1) + EnqAccess(run[k - 1], moves[k - 1].t, moves[k - 1].act)
  }

  ghost predicate Account(s: State, maxWidth: Width, n: nat, accesses: nat, changes: nat, calls: nat, links: nat) {
    && Covered(s, maxWidth + 3, accesses, changes, calls) && Nodes(s) == links && s.wins[0].max == 0
    && s.maxWidth == maxWidth && |s.threads| == n
  }

  lemma InitAccount(maxWidth: Width, width: nat, depth: nat, n: nat)
    requires 1 <= width <= maxWidth && depth >= 1
    ensures Account(Init(maxWidth, width, depth, n), maxWidth, n, 0, 0, 0, 0)
  {
    var s := Init(maxWidth, width, depth, n);
    InitOk(maxWidth, width, depth, n);
    SumBounded(Works(s), 0);
    SumBounded(Lengths(s.subs), 0);
    AllOnes(Weights(s.subs));
  }

  lemma AccountStep(s: State, maxWidth: Width, n: nat, accesses: nat, changes: nat, calls: nat, links: nat, t: nat,
                    act: Action)
    returns (changes1: nat)
    requires Account(s, maxWidth, n, accesses, changes, calls, links) && Enabled(s, t, act)
    ensures Account(Step(s, t, act).0, maxWidth, n, accesses + EnqAccess(s, t, act), changes1, calls + EnqCall(act),
                    links + Links(Step(s, t, act).1))
  {
    changes1 := CoveredStep(s, maxWidth + 3, accesses, changes, calls, t, act);
    NodesStep(s, t, act);
    StepKeeps(s, t, act);
    WindowsStay(s, t, act);
  }

  lemma AccountMakes(s: State, maxWidth: Width, n: nat, accesses: nat, changes: nat, calls: nat, links: nat,
                     m: Move<Action>, s1: State, e: Event)
    returns (changes1: nat)
    requires Account(s, maxWidth, n, accesses, changes, calls, links) && Makes(s, m, s1, e)
    ensures Account(s1, maxWidth, n, accesses + EnqAccess(s, m.t, m.act), changes1, calls + EnqCall(m.act),
                    links + Links(e))
  {
    changes1 := AccountStep(s, maxWidth, n, accesses, changes, calls, links, m.t, m.act);
  }

  lemma CountsOn(run: seq<State>, moves: seq<Move<Action>>, events: seq<Event>, k: nat)
    requires |run| == |moves| + 1 == |events| + 1 && 0 < k <= |moves|
    ensures EnqAccesses(run, moves, k) ==
            EnqAccesses(run, moves, k - 1) + EnqAccess(run[k - 1], moves[k - 1].t, moves[k - 1].act)
    ensures Count(moves[..k], EnqCall) == Count(moves[..k - 1], EnqCall) + EnqCall(moves[k - 1].act)
    ensures Effects(events[..k], Links) == Effects(events[..k - 1], Links) + Links(events[k - 1])
  {
    assert moves[..k][..k - 1] == moves[..k - 1] && events[..k][..k - 1] == events[..k - 1];
  }

  lemma {:induction false} RunAccount(maxWidth: Width, width: nat, depth: nat, n: nat, run: seq<State>,
                                      moves: seq<Move<Action>>, events: seq<Event>, k: nat)
    returns (accesses: nat, changes: nat, calls: nat, links: nat)
    requires IsRunOf(maxWidth, width, depth, n, run, moves, events) && 1 <= width <= maxWidth && depth >= 1
    requires k <= |moves|
    ensures Account(run[k], maxWidth, n, accesses, changes, calls, links)
    ensures accesses == EnqAccesses(run, moves, k)
    ensures calls == Count(moves[..k], EnqCall) && links == Effects(events[..k], Links)
    decreases k
  {
    if k == 0 {
      InitAccount(maxWidth, width, depth, n);
      accesses, changes, calls, links := 0, 0, 0, 0;
    } else {
      accesses, changes, calls, links := RunAccount(maxWidth, width, depth, n, run, moves, events, k - 1);
      ChainAt(run, moves, events, Makes, k - 1);
      CountsOn(run, moves, events, k);
      var m, e := moves[k - 1], events[k - 1];
      changes := AccountMakes(run[k - 1], maxWidth, n, accesses, changes, calls, links, m, run[k], e);
      accesses, calls, links := accesses + EnqAccess(run[k - 1], m.t, m.act), calls + EnqCall(m.act), links + Links(e);
    }
  }

  lemma AccountBounds(s: State, maxWidth: Width, n: nat, accesses: nat, changes: nat, calls: nat, links: nat)
    requires Account(s, maxWidth, n, accesses, changes, calls, links)
    ensures accesses <= Allowance(Limit(maxWidth), n, 4 * links + 1, calls)
  {
    ChangesBounded(s);
    AllowanceMonotone(Limit(maxWidth), n, changes, 4 * links + 1, calls);
  }

  /** Enqueues are lock-free, over every run of n threads and any changes of width and depth: once no enqueue
      is called any more, only so many accesses can be made by enqueues before another one takes effect
      or all are done. */
  lemma LockFree(maxWidth: Width, width: nat, depth: nat, n: nat, run: seq<State>, moves: seq<Move<Action>>,
                 events: seq<Event>)
    requires IsRunOf(maxWidth, width, depth, n, run, moves, events) && 1 <= width <= maxWidth && depth >= 1
    ensures EnqAccesses(run, moves, |moves|) <=
            Allowance(Limit(maxWidth), n, 4 * Effects(events, Links) + 1, Count(moves, EnqCall))
  {
    var accesses, changes, calls, links := RunAccount(maxWidth, width, depth, n, run, moves, events, |moves|);
    assert moves[..|moves|] == moves && events[..|moves|] == events;
    AccountBounds(run[|moves|], maxWidth, n, accesses, changes, calls, links);
  }

  // ---------------------------------------------------------------------------------------------
  // Every enqueue takes effect at most once

  /** An enqueue whose node is not linked yet. */
  function OwesLink(pc: Pc): nat { if EnqValue(pc).Yes? then 1 else 0 }

  function Owes(s: State, t: nat): nat { if t < |s.threads| then OwesLink(s.threads[t].pc) else 0 }

  lemma DeqOffPutSide(s: State, th: Thread, nodeFirst: bool)
    requires Named(s, th) && !OnPutSide(th.pc)
    ensures !OnPutSide(LookDeq(s, th, nodeFirst).pc)
  {
  }

  lemma GetOffPutSide(s: State, th: Thread, r: nat, nodeFirst: bool)
    requires Named(s, th) && !OnPutSide(th.pc)
    ensures !OnPutSide(Look(s, th, r, nodeFirst).pc)
  {
    DeqOffPutSide(s, th, nodeFirst);
  }

  lemma OwesStep(s: State, t: nat, act: Action)
    requires Enabled(s, t, act)
    ensures var (s1, e) := Step(s, t, act); Owes(s1, t) + Links(e) == Owes(s, t) + EnqCall(act)
  {
    StepTold(s, t, act);
  }

  /** From any state on, a thread links exactly as many nodes as it calls enqueue, counting those it owes. */
  lemma OncePerCall(run: seq<State>, moves: seq<Move<Action>>, events: seq<Event>, t: nat)
    requires Chain(run, moves, events, Makes)
    ensures EffectsBy(moves, events, Links, t) + Owes(run[|moves|], t) == CountBy(moves, EnqCall, t) + Owes(run[0], t)
  {
    forall s, m, s1, e | Makes(s, m, s1, e)
      ensures Owes(s1, t) + (if m.t == t then Links(e) else 0) == Owes(s, t) + if m.t == t then EnqCall(m.act) else 0
    {
      if m.t == t { OwesStep(s, t, m.act); } else { OthersUnmoved(s, m.t, m.act); }
    }
    EffectsCalled(run, moves, events, Makes, Owes, Links, EnqCall, t);
  }

  function Owed(s: State): seq<nat> { seq(|s.threads|, t requires 0 <= t < |s.threads| => Owes(s, t)) }

  function AllOwed(s: State): nat { Sum(Owed(s)) }

  lemma OwedStep(s: State, t: nat, act: Action)
    requires Enabled(s, t, act)
    ensures var (s1, e) := Step(s, t, act); AllOwed(s1) + Links(e) == AllOwed(s) + EnqCall(act)
  {
    var (s1, e) := Step(s, t, act);
    OwesStep(s, t, act);
    OthersUnmoved(s, t, act);
    SumUpdate(Owed(s), t, Owes(s1, t));
    assert Owed(s1) == Owed(s)[t := Owes(s1, t)];
  }

  lemma LinksCalled(maxWidth: Width, width: nat, depth: nat, n: nat, run: seq<State>, moves: seq<Move<Action>>,
                    events: seq<Event>)
    requires IsRunOf(maxWidth, width, depth, n, run, moves, events)
    ensures Effects(events, Links) + AllOwed(run[|moves|]) == Count(moves, EnqCall)
  {
    forall s, m, s1, e | Makes(s, m, s1, e) ensures AllOwed(s1) + Links(e) == AllOwed(s) + EnqCall(m.act) {
      OwedStep(s, m.t, m.act);
    }
    AllEffectsCalled(run, moves, events, Makes, AllOwed, Links, EnqCall);
    SumBounded(Owed(run[0]), 0);
  }

  /** So whatever the schedule, and whatever dequeues do meanwhile, all enqueues together make only so many
      accesses. */
  lemma AllCallsEnd(maxWidth: Width, width: nat, depth: nat, n: nat, run: seq<State>, moves: seq<Move<Action>>,
                    events: seq<Event>)
    requires IsRunOf(maxWidth, width, depth, n, run, moves, events) && 1 <= width <= maxWidth && depth >= 1
    ensures EnqAccesses(run, moves, |moves|) <=
            Allowance(Limit(maxWidth), n, 4 * Count(moves, EnqCall) + 1, Count(moves, EnqCall))
  {
    LockFree(maxWidth, width, depth, n, run, moves, events);
    LinksCalled(maxWidth, width, depth, n, run, moves, events);
    AllowanceMonotone(Limit(maxWidth), n, 4 * Effects(events, Links) + 1, 4 * Count(moves, EnqCall) + 1,
                      Count(moves, EnqCall));
  }
}
