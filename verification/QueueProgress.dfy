/** The static 2D queue is lock-free: over every run, the accesses made are bounded by the calls made and
    the enqueues that took effect.  While shared memory does not change, each thread has only so many
    steps to take before it changes it or is done; and shared memory changes at most five times for
    every node linked. */
module QueueProgress {
  import opened Accounting
  import opened Descriptor
  import opened History
  import opened Schedule
  import opened Search
  import opened StaticAnswers
  import opened StaticQueueSteps

  function Limit(w: nat): nat { 4 * w + 25 }

  /** Steps from the start of a search over sub-queues that stay as they are. */
  function PutAgain(w: nat): nat { 3 * w + 13 }
  function GetAgain(w: nat): nat { 4 * w + 17 }

  /** Hops still to make before the window is shifted. */
  function Left(w: nat, th: Thread): nat {
    (if th.random <= RANDOM_HOPS then RANDOM_HOPS - th.random else 0) + (if th.hops <= w then w - th.hops else 0)
  }

  /** All that the thread has read is still so. */
  predicate Current(s: State, th: Thread)
    requires th.index < s.Width()
  {
    var x := s.subs[th.index];
    match th.pc
    case PutRead(_) => th.putMax == s.putMax
    case PutReadNode(_, count) => th.putMax == s.putMax && count == x.put.count
    case PutReadCount(_, tail) => th.putMax == s.putMax && tail == x.put.node
    case PutCheck(_, tail, count) => th.putMax == s.putMax && x.put == Desc(tail, count)
    case PutShift(_) => th.putMax == s.putMax
    case PutShiftCas(_) => th.putMax == s.putMax
    case EnqNext(_, tail, count) => x.put == Desc(tail, count) && count < th.putMax
    case EnqRecheck(_, tail, count) => x.put == Desc(tail, count) && count < th.putMax && tail + 1 == |x.list|
    case EnqLink(_, tail, _) => tail + 1 == |x.list|
    case EnqHelp(_, tail, count) => x.put == Desc(tail, count)
    case GetRead => th.getMax == s.getMax
    case GetReadNode(count) => th.getMax == s.getMax && count == x.get.count
    case GetReadCount(head) => th.getMax == s.getMax && head == x.get.node
    case GetReadPut(head, count) => th.getMax == s.getMax && x.get == Desc(head, count)
    case GetCheck(head, count, put) => th.getMax == s.getMax && x.get == Desc(head, count) && put == x.put.count
    case GetShift => th.getMax == s.getMax
    case GetShiftCas => th.getMax == s.getMax
    case DeqTail(head, count) => x.get == Desc(head, count)
    case DeqTailNode(head, count, tcount) => x.get == Desc(head, count) && tcount == x.put.count
    case DeqTailCount(head, count, tail) => x.get == Desc(head, count) && tail == x.put.node
    case DeqNext(head, count, tail, tcount) => x.get == Desc(head, count) && x.put == Desc(tail, tcount)
    case DeqHelp(tail, tcount) => x.put == Desc(tail, tcount)
    case DeqSwing(head, count) => x.get == Desc(head, count)
    case _ => true
  }

  function NearPut(w: nat, th: Thread): nat {
    match th.pc
    case PutEnter(_) => PutAgain(w)
    case PutRead(_) => 3 * Left(w, th) + 6
    case PutReadNode(_, _) => 3 * Left(w, th) + 5
    case PutReadCount(_, _) => 3 * Left(w, th) + 5
    case PutCheck(_, _, _) => 3 * Left(w, th) + 4
    case PutShift(_) => 2
    case PutResync(_) => PutAgain(w)
    case EnqNext(_, _, _) => 3
    case EnqRecheck(_, _, _) => 2
    case _ => 1
  }

  function NearGet(w: nat, th: Thread): nat {
    match th.pc
    case GetEnter => GetAgain(w)
    case GetRead => 4 * Left(w, th) + 8
    case GetReadNode(_) => 4 * Left(w, th) + 7
    case GetReadCount(_) => 4 * Left(w, th) + 7
    case GetReadPut(_, _) => 4 * Left(w, th) + 6
    case GetCheck(_, _, _) => 4 * Left(w, th) + 5
    case GetShift => 2
    case GetResync => GetAgain(w)
    case DeqTail(_, _) => 4
    case DeqTailNode(_, _, _) => 3
    case DeqTailCount(_, _, _) => 3
    case DeqNext(_, _, _, _) => 2
    case _ => 1
  }

  /** What may be wasted on outdated reads before the thread starts over. */
  function FarPut(pc: Pc): nat {
    match pc
    case PutRead(_) => 6
    case PutReadNode(_, _) => 5
    case PutReadCount(_, _) => 5
    case PutCheck(_, _, _) => 4
    case EnqNext(_, _, _) => 3
    case EnqRecheck(_, _, _) => 2
    case _ => 1
  }

  function FarGet(pc: Pc): nat {
    match pc
    case GetRead => 8
    case GetReadNode(_) => 7
    case GetReadCount(_) => 7
    case GetReadPut(_, _) => 6
    case GetCheck(_, _, _) => 5
    case DeqTail(_, _) => 4
    case DeqTailNode(_, _, _) => 3
    case DeqTailCount(_, _, _) => 3
    case DeqNext(_, _, _, _) => 2
    case _ => 1
  }

  ghost predicate OnPutSide(pc: Pc) {
    PutSide(pc) || pc.PutEnter? || pc.PutResync? || pc.EnqNext? || pc.EnqRecheck? || pc.EnqLink? || pc.EnqHelp? ||
        pc.EnqConfirm?
  }

  /** An upper bound on the steps a thread can take before shared memory changes. */
  ghost function Work(s: State, th: Thread): nat
    requires th.index < s.Width()
  {
    var w := s.Width();
    if th.pc.Idle? then 0
    else if OnPutSide(th.pc) then if Current(s, th) then NearPut(w, th) else PutAgain(w) + FarPut(th.pc)
    else if Current(s, th) then NearGet(w, th) else GetAgain(w) + FarGet(th.pc)
  }

  lemma WorkBounded(s: State, th: Thread)
    requires th.index < s.Width()
    ensures Work(s, th) <= Limit(s.Width())
  {
  }

  ghost predicate SameMemory(s: State, s1: State) {
    s1.subs == s.subs && s1.putMax == s.putMax && s1.getMax == s.getMax && s1.depth == s.depth &&
        |s1.threads| == |s.threads|
  }

  ghost predicate Worked(s: State, th: Thread, th1: Thread) {
    th.index < s.Width() && th1.index < s.Width() && Work(s, th1) < Work(s, th)
  }

  ghost predicate Looking(s: State, th: Thread, r: nat) {
    s.Width() >= 1 && ThreadOk(s, th) && r < s.Width() && SubOk(s.subs[th.index], s.putMax, s.depth)
  }

  lemma PutLookWorks(s: State, th: Thread, r: nat, nodeFirst: bool)
    requires Looking(s, th, r)
    requires th.pc.PutEnter? || th.pc.PutRead? || th.pc.PutReadNode? || th.pc.PutReadCount? || th.pc.PutShift? ||
        th.pc.PutResync?
    ensures Worked(s, th, Look(s, th, r, nodeFirst))
  {
  }

  lemma PutCheckWorks(s: State, th: Thread, r: nat, nodeFirst: bool)
    requires Looking(s, th, r) && th.pc.PutCheck?
    ensures Worked(s, th, Look(s, th, r, nodeFirst))
  {
  }

  lemma EnqLookWorks(s: State, th: Thread, r: nat, nodeFirst: bool)
    requires Looking(s, th, r) && (th.pc.EnqNext? || th.pc.EnqRecheck?)
    ensures Worked(s, th, Look(s, th, r, nodeFirst))
  {
  }

  lemma GetEnterWorks(s: State, th: Thread, r: nat, nodeFirst: bool)
    requires Looking(s, th, r) && (th.pc.GetEnter? || th.pc.GetShift? || th.pc.GetResync?)
    ensures Worked(s, th, Look(s, th, r, nodeFirst))
  {
  }

  lemma GetReadWorks(s: State, th: Thread, r: nat, nodeFirst: bool)
    requires Looking(s, th, r) && (th.pc.GetRead? || th.pc.GetReadNode? || th.pc.GetReadCount? || th.pc.GetReadPut?)
    ensures Worked(s, th, Look(s, th, r, nodeFirst))
  {
  }

  lemma GetCheckWorks(s: State, th: Thread, r: nat, nodeFirst: bool)
    requires Looking(s, th, r) && th.pc.GetCheck?
    ensures Worked(s, th, Look(s, th, r, nodeFirst))
  {
  }

  lemma DeqTailWorks(s: State, th: Thread, r: nat, nodeFirst: bool)
    requires Looking(s, th, r) && (th.pc.DeqTail? || th.pc.DeqTailNode? || th.pc.DeqTailCount?)
    ensures Worked(s, th, Look(s, th, r, nodeFirst))
  {
  }

  lemma DeqNextWorks(s: State, th: Thread, r: nat, nodeFirst: bool)
    requires Looking(s, th, r) && th.pc.DeqNext?
    ensures Worked(s, th, Look(s, th, r, nodeFirst))
  {
  }

  /** A read brings its thread nearer, whatever it reads. */
  lemma LookWorks(s: State, th: Thread, r: nat, nodeFirst: bool)
    requires Looking(s, th, r) && !Writing(th.pc) && !th.pc.Idle?
    ensures Worked(s, th, Look(s, th, r, nodeFirst))
  {
    var pc := th.pc;
    if pc.PutCheck? { PutCheckWorks(s, th, r, nodeFirst); }
    else if pc.EnqNext? || pc.EnqRecheck? { EnqLookWorks(s, th, r, nodeFirst); }
    else if pc.GetCheck? { GetCheckWorks(s, th, r, nodeFirst); }
    else if pc.DeqNext? { DeqNextWorks(s, th, r, nodeFirst); }
    else if pc.DeqTail? || pc.DeqTailNode? || pc.DeqTailCount? { DeqTailWorks(s, th, r, nodeFirst); }
    else if pc.GetRead? || pc.GetReadNode? || pc.GetReadCount? || pc.GetReadPut? { GetReadWorks(s, th, r, nodeFirst); }
    else if pc.GetEnter? || pc.GetShift? || pc.GetResync? { GetEnterWorks(s, th, r, nodeFirst); }
    else { PutLookWorks(s, th, r, nodeFirst); }
  }

  // ---------------------------------------------------------------------------------------------
  // How often shared memory changed

  function Weight(x: Sub): nat { |x.list| + x.put.node + x.get.node }

  function Weights(subs: seq<Sub>): seq<nat> { seq(|subs|, i requires 0 <= i < |subs| => Weight(subs[i])) }

  /** Grows with every change of shared memory. */
  function Changes(s: State): nat { Sum(Weights(s.subs)) + s.putMax + s.getMax }

  /** Nodes linked, the dummies not counted. */
  function Lengths(subs: seq<Sub>): seq<nat> {
    seq(|subs|, i requires 0 <= i < |subs| => if subs[i].list == [] then 0 else |subs[i].list| - 1)
  }

  lemma SubWrites(s: State, i: nat, y: Sub)
    requires i < s.Width() && Weight(y) == Weight(s.subs[i]) + 1
    ensures Changes(s.SetSub(i, y)) == Changes(s) + 1
  {
    SumUpdate(Weights(s.subs), i, Weight(y));
    assert Weights(s.subs[i := y]) == Weights(s.subs)[i := Weight(y)];
  }

  /** What a step came to: shared memory changed, or only the thread moved, by at most `cost`. */
  ghost predicate Paid(s: State, t: nat, s1: State, cost: int) {
    && t < |s.threads| == |s1.threads| && s.threads[t].index < s.Width() && s1.threads[t].index < s1.Width() &&
        s1.Width() == s.Width()
    && (forall u :: 0 <= u < |s.threads| && u != t ==> s1.threads[u] == s.threads[u])
    && (if SameMemory(s, s1) then Work(s, s1.threads[t]) <= Work(s, s.threads[t]) + cost
        else cost == -1 && Changes(s1) >= Changes(s) + 1 && Work(s, s.threads[t]) >= 1)
  }

  lemma SwapPutPays(s: State, t: nat, tail: nat, count: nat, pc: Pc)
    requires Inv(s) && t < |s.threads|
    requires var p := s.threads[t].pc;
             || (p.EnqHelp? && pc.PutEnter? && p.tail == tail && p.count == count)
             || (p.EnqConfirm? && pc.Idle? && p.tail == tail && p.count == count)
             || (p.DeqHelp? && pc.GetEnter? && p.tail == tail && p.tcount == count)
    requires s.threads[t].index < s.Width()
    ensures Paid(s, t, SwapPut(s, t, tail, count, pc), -1)
    ensures SameMemory(s, SwapPut(s, t, tail, count, pc)) <==> s.subs[s.threads[t].index].put != Desc(tail, count)
  {
    var i := s.threads[t].index;
    var x := s.subs[i];
    if x.put == Desc(tail, count) {
      var y := x.(put := Desc(tail + 1, count + 1));
      SubWrites(s, i, y);
      assert s.SetSub(i, y).subs[i].put != s.subs[i].put;
    }
  }

  lemma HelpPays(s: State, t: nat, act: Action)
    requires Inv(s) && Enabled(s, t, act) && act.Go? && s.threads[t].pc.EnqHelp?
    ensures Paid(s, t, Step(s, t, act).0, -1)
  {
    SwapPutPays(s, t, s.threads[t].pc.tail, s.threads[t].pc.count, PutEnter(s.threads[t].pc.v));
  }

  lemma ConfirmPays(s: State, t: nat, act: Action)
    requires Inv(s) && Enabled(s, t, act) && act.Go? && s.threads[t].pc.EnqConfirm?
    ensures Paid(s, t, Step(s, t, act).0, -1)
  {
    SwapPutPays(s, t, s.threads[t].pc.tail, s.threads[t].pc.count, Idle);
  }

  lemma DeqHelpPays(s: State, t: nat, act: Action)
    requires Inv(s) && Enabled(s, t, act) && act.Go? && s.threads[t].pc.DeqHelp?
    ensures Paid(s, t, Step(s, t, act).0, -1)
  {
    SwapPutPays(s, t, s.threads[t].pc.tail, s.threads[t].pc.tcount, GetEnter);
  }

  lemma LinkPays(s: State, t: nat, act: Action)
    requires Inv(s) && Enabled(s, t, act) && act.Go? && s.threads[t].pc.EnqLink?
    ensures Paid(s, t, Step(s, t, act).0, -1)
  {
    var EnqLink(v, tail, count) := s.threads[t].pc;
    var i := s.threads[t].index;
    var x := s.subs[i];
    if tail == |x.list| - 1 {
      var y := x.(list := x.list + [v]);
      SubWrites(s, i, y);
      assert |s.SetSub(i, y).subs[i].list| != |s.subs[i].list|;
    }
  }

  lemma SwingPays(s: State, t: nat)
    requires Inv(s) && t < |s.threads| && s.threads[t].pc.DeqSwing? && s.threads[t].index < s.Width()
    ensures Paid(s, t, SwapGet(s, t, s.threads[t].pc.head, s.threads[t].pc.count), -1)
  {
    var DeqSwing(head, count) := s.threads[t].pc;
    var i := s.threads[t].index;
    var x := s.subs[i];
    if x.get == Desc(head, count) {
      var y := x.(get := Desc(head + 1, count + 1));
      SubWrites(s, i, y);
      assert s.SetSub(i, y).subs[i].get != s.subs[i].get;
    }
  }

  lemma ShiftPays(s: State, t: nat, act: Action)
    requires Inv(s) && Enabled(s, t, act) && act.Go? && (s.threads[t].pc.PutShiftCas? || s.threads[t].pc.GetShiftCas?)
    ensures Paid(s, t, Step(s, t, act).0, -1)
  {
  }

  lemma LookPays(s: State, t: nat, act: Action)
    requires Inv(s) && Enabled(s, t, act) && act.Go? && !Writing(s.threads[t].pc)
    ensures Paid(s, t, Step(s, t, act).0, -1)
  {
    var th := s.threads[t];
    assert ThreadOk(s, th) && SubOk(s.subs[th.index], s.putMax, s.depth);
    LookWorks(s, th, act.r, act.nodeFirst);
    assert Step(s, t, act).0 == s.At(t, Look(s, th, act.r, act.nodeFirst));
  }

  lemma AccessPays(s: State, t: nat, act: Action)
    requires Inv(s) && Enabled(s, t, act) && act.Go?
    ensures Paid(s, t, Step(s, t, act).0, -1)
  {
    var pc := s.threads[t].pc;
    if pc.EnqHelp? { HelpPays(s, t, act); }
    else if pc.EnqConfirm? { ConfirmPays(s, t, act); }
    else if pc.DeqHelp? { DeqHelpPays(s, t, act); }
    else if pc.EnqLink? { LinkPays(s, t, act); }
    else if pc.DeqSwing? { SwingPays(s, t); }
    else if pc.PutShiftCas? || pc.GetShiftCas? { ShiftPays(s, t, act); }
    else { LookPays(s, t, act); }
  }

  function IsCall(act: Action): nat { if act.Go? then 0 else 1 }
  function IsAccess(act: Action): nat { if act.Go? then 1 else 0 }

  lemma StepPays(s: State, t: nat, act: Action)
    requires Inv(s) && Enabled(s, t, act)
    ensures Paid(s, t, Step(s, t, act).0, if act.Go? then -1 else Limit(s.Width()))
    ensures Work(s, s.threads[t]) <= Limit(s.Width())
  {
    WorkBounded(s, s.threads[t]);
    if act.Go? { AccessPays(s, t, act); } else { WorkBounded(s, Step(s, t, act).0.threads[t]); }
  }

  // ---------------------------------------------------------------------------------------------
  // Adding up over all threads

  ghost function Works(s: State): seq<nat>
    requires Inv(s)
  {
    seq(|s.threads|, t requires 0 <= t < |s.threads| => Own(s, t))
  }

  ghost function Own(s: State, t: nat): nat
    requires Inv(s) && t < |s.threads|
  {
    assert ThreadOk(s, s.threads[t]);
    Work(s, s.threads[t])
  }

  ghost function Total(s: State): nat requires Inv(s) { Sum(Works(s)) }

  lemma TotalBounded(s: State)
    requires Inv(s)
    ensures Total(s) <= Limit(s.Width()) * |s.threads|
    ensures forall t :: 0 <= t < |s.threads| ==> Own(s, t) <= Total(s)
  {
    forall t | 0 <= t < |s.threads| ensures Works(s)[t] <= Limit(s.Width()) {
      assert ThreadOk(s, s.threads[t]);
      WorkBounded(s, s.threads[t]);
    }
    SumBounded(Works(s), Limit(s.Width()));
    EachBelowSum(Works(s));
    assert forall t :: 0 <= t < |s.threads| ==> Works(s)[t] == Own(s, t);
  }

  lemma SameWork(s: State, s1: State, th: Thread)
    requires SameMemory(s, s1) && th.index < s.Width()
    ensures Work(s1, th) == Work(s, th)
  {
  }

  lemma QuietTotal(s: State, t: nat, s1: State, cost: int)
    requires Inv(s) && Inv(s1) && Paid(s, t, s1, cost) && SameMemory(s, s1)
    ensures Total(s1) <= Total(s) + cost
  {
    forall u | 0 <= u < |s.threads| ensures Works(s1)[u] <= Works(s)[u] + if u == t then cost else 0 {
      assert ThreadOk(s, s.threads[u]) && ThreadOk(s1, s1.threads[u]);
      SameWork(s, s1, s1.threads[u]);
    }
    SumChanges(Works(s), Works(s1), t, cost);
  }

  /** Accesses made and work left are covered by the changes of shared memory and the calls made. */
  ghost predicate Covered(s: State, start: nat, accesses: nat, changes: nat, calls: nat) {
    Inv(s) && start + changes <= Changes(s) &&
        accesses + Total(s) <= Allowance(Limit(s.Width()), |s.threads|, changes, calls)
  }

  lemma CoveredStep(s: State, start: nat, accesses: nat, changes: nat, calls: nat, t: nat, act: Action)
    returns (changes1: nat)
    requires Covered(s, start, accesses, changes, calls) && Enabled(s, t, act)
    ensures Covered(Step(s, t, act).0, start, accesses + IsAccess(act), changes1, calls + IsCall(act))
  {
    var s1 := Step(s, t, act).0;
    StepKeeps(s, t, act);
    StepPays(s, t, act);
    AllowanceGrows(Limit(s.Width()), |s.threads|, changes, calls);
    if SameMemory(s, s1) {
      changes1 := changes;
      QuietTotal(s, t, s1, if act.Go? then -1 else Limit(s.Width()));
    } else {
      changes1 := changes + 1;
      TotalBounded(s);
      TotalBounded(s1);
      assert Own(s, t) >= 1;
    }
  }

  // ---------------------------------------------------------------------------------------------
  // Nodes linked pay for all changes

  function Nodes(s: State): nat { Sum(Lengths(s.subs)) }

  lemma NodesStep(s: State, t: nat, act: Action)
    requires Inv(s) && Enabled(s, t, act)
    ensures Nodes(Step(s, t, act).0) == Nodes(s) + if Step(s, t, act).1.Linked? then 1 else 0
  {
    var (s1, e) := Step(s, t, act);
    forall i | 0 <= i < s.Width()
      ensures i < s1.Width() && s.subs[i].list != []
      ensures s1.subs[i].list == s.subs[i].list + if e.Linked? && e.i == i then [e.v] else []
    {
      EventTells(s, t, act, i);
      assert SubOk(s.subs[i], s.putMax, s.depth);
    }
    EventTells(s, t, act, 0);
    if e.Linked? {
      assert ThreadOk(s, s.threads[t]) && e.i == s.threads[t].index;
      SumUpdate(Lengths(s.subs), e.i, Lengths(s.subs)[e.i] + 1);
      assert Lengths(s1.subs) == Lengths(s.subs)[e.i := Lengths(s.subs)[e.i] + 1];
    } else {
      assert Lengths(s1.subs) == Lengths(s.subs);
    }
  }

  lemma {:induction false} WeightsBounded(subs: seq<Sub>, putMax: nat, depth: nat)
    requires forall i {:trigger SubOk(subs[i], putMax, depth)} :: 0 <= i < |subs| ==> SubOk(subs[i], putMax, depth)
    ensures Sum(Weights(subs)) <= |subs| + 3 * Sum(Lengths(subs))
    decreases |subs|
  {
    if subs != [] {
      var n := |subs| - 1;
      forall i | 0 <= i < n ensures SubOk(subs[..n][i], putMax, depth) { assert SubOk(subs[i], putMax, depth); }
      WeightsBounded(subs[..n], putMax, depth);
      assert SubOk(subs[n], putMax, depth);
      assert Weights(subs)[..n] == Weights(subs[..n]) && Lengths(subs)[..n] == Lengths(subs[..n]);
    }
  }

  /** Each node is linked, confirmed and taken at most once, and the windows cannot get further ahead of
      a sub-queue than one depth. */
  lemma ChangesBounded(s: State)
    requires Inv(s)
    ensures Changes(s) <= s.Width() + 2 * s.depth + 5 * Nodes(s)
  {
    WeightsBounded(s.subs, s.putMax, s.depth);
    assert SubOk(s.subs[0], s.putMax, s.depth);
    var l := Lengths(s.subs);
    EachBelowSum(l);
    assert l[0] == |s.subs[0].list| - 1;
  }

  // ---------------------------------------------------------------------------------------------
  // Whole runs

  /** An enqueue took effect. */
  function Links(e: Event): nat { if e.Linked? then 1 else 0 }

  lemma InitCovered(width: nat, depth: nat, n: nat)
    requires width >= 1 && depth >= 1
    ensures var s := Init(width, depth, n); Covered(s, width + 2 * depth, 0, 0, 0) && Nodes(s) == 0
  {
    var s := Init(width, depth, n);
    Reachable(width, depth, n, [s], []);
    SumBounded(Works(s), 0);
    SumBounded(Lengths(s.subs), 0);
    AllOnes(Weights(s.subs));
  }

  ghost predicate Account(s: State, width: nat, depth: nat, n: nat, moves: seq<Move<Action>>, events: seq<Event>,
                          changes: nat) {
    && Covered(s, width + 2 * depth, Count(moves, IsAccess), changes, Count(moves, IsCall))
    && Nodes(s) == Effects(events, Links)
    && s.Width() == width && s.depth == depth && |s.threads| == n
  }

  lemma {:induction false} RunAccount(width: nat, depth: nat, n: nat, run: seq<State>, moves: seq<Move<Action>>,
                                      events: seq<Event>)
    returns (changes: nat)
    requires IsRunOf(width, depth, n, run, moves, events) && width >= 1 && depth >= 1
    ensures Account(run[|moves|], width, depth, n, moves, events, changes)
    decreases |moves|
  {
    if moves == [] {
      InitCovered(width, depth, n);
      changes := 0;
    } else {
      var k := |moves| - 1;
      ChainPrefix(run, moves, events, Makes);
      changes := RunAccount(width, depth, n, run[..k + 1], moves[..k], events[..k]);
      changes := AccountStep(run[k], width, depth, n, moves[..k], events[..k], changes, moves[k], events[k]);
    }
  }

  lemma AccountStep(s: State, width: nat, depth: nat, n: nat, moves: seq<Move<Action>>, events: seq<Event>,
                    changes: nat, m: Move<Action>, e: Event)
    returns (changes1: nat)
    requires Account(s, width, depth, n, moves, events, changes) && Enabled(s, m.t, m.act) && Step(s, m.t, m.act).1 == e
    ensures Account(Step(s, m.t, m.act).0, width, depth, n, moves + [m], events + [e], changes1)
  {
    changes1 := CoveredStep(s, width + 2 * depth, Count(moves, IsAccess), changes, Count(moves, IsCall), m.t, m.act);
    NodesStep(s, m.t, m.act);
    StepKeeps(s, m.t, m.act);
    assert (moves + [m])[..|moves|] == moves && (events + [e])[..|events|] == events;
  }

  /** Lock-freedom, over every run of n threads, for any width and depth: once nothing is called any
      more, only so many accesses can be made before another enqueue takes effect or all are done. */
  lemma LockFree(width: nat, depth: nat, n: nat, run: seq<State>, moves: seq<Move<Action>>, events: seq<Event>)
    requires IsRunOf(width, depth, n, run, moves, events) && width >= 1 && depth >= 1
    ensures Count(moves, IsAccess) <= Allowance(Limit(width), n, 5 * Effects(events, Links), Count(moves, IsCall))
  {
    var changes := RunAccount(width, depth, n, run, moves, events);
    ChangesBounded(run[|moves|]);
    AllowanceMonotone(Limit(width), n, changes, 5 * Effects(events, Links), Count(moves, IsCall));
  }

  // ---------------------------------------------------------------------------------------------
  // Every enqueue takes effect at most once

  /** An enqueue whose node is not linked yet. */
  function OwesLink(pc: Pc): nat { if WaitsAt(pc).Yes? && WaitsAt(pc).get.Enq? then 1 else 0 }

  function EnqCall(act: Action): nat { if act.CallEnqueue? then 1 else 0 }

  function Owed(s: State): seq<nat> {
    seq(|s.threads|, t requires 0 <= t < |s.threads| => OwesLink(s.threads[t].pc))
  }

  lemma OwesStep(s: State, t: nat, act: Action)
    requires Enabled(s, t, act)
    ensures var (s1, e) := Step(s, t, act);
            && |s1.threads| == |s.threads| && s1.threads == s.threads[t := s1.threads[t]]
            && OwesLink(s1.threads[t].pc) + Links(e) == OwesLink(s.threads[t].pc) + EnqCall(act)
  {
    StepTold(s, t, act);
  }

  function AllOwed(s: State): nat { Sum(Owed(s)) }

  lemma OwedStep(s: State, t: nat, act: Action)
    requires Enabled(s, t, act)
    ensures var (s1, e) := Step(s, t, act); AllOwed(s1) + Links(e) == AllOwed(s) + EnqCall(act)
  {
    OwesStep(s, t, act);
    OwedSum(s, Step(s, t, act).0, t);
  }

  lemma OwedSum(s: State, s1: State, t: nat)
    requires t < |s.threads| == |s1.threads| && s1.threads == s.threads[t := s1.threads[t]]
    ensures AllOwed(s1) == AllOwed(s) - OwesLink(s.threads[t].pc) + OwesLink(s1.threads[t].pc)
  {
    SumUpdate(Owed(s), t, OwesLink(s1.threads[t].pc));
    assert Owed(s1) == Owed(s)[t := OwesLink(s1.threads[t].pc)];
  }

  function Owes(s: State, t: nat): nat { if t < |s.threads| then OwesLink(s.threads[t].pc) else 0 }

  /** From any state on, a thread links exactly as many nodes as it calls enqueue, counting those it owes. */
  lemma OncePerCall(run: seq<State>, moves: seq<Move<Action>>, events: seq<Event>, t: nat)
    requires Chain(run, moves, events, Makes)
    ensures EffectsBy(moves, events, Links, t) + Owes(run[|moves|], t) == CountBy(moves, EnqCall, t) + Owes(run[0], t)
  {
    forall s, m, s1, e | Makes(s, m, s1, e)
      ensures Owes(s1, t) + (if m.t == t then Links(e) else 0) == Owes(s, t) + if m.t == t then EnqCall(m.act) else 0
    {
      OwesStep(s, m.t, m.act);
    }
    EffectsCalled(run, moves, events, Makes, Owes, Links, EnqCall, t);
  }

  lemma LinksCalled(width: nat, depth: nat, n: nat, run: seq<State>, moves: seq<Move<Action>>, events: seq<Event>)
    requires IsRunOf(width, depth, n, run, moves, events)
    ensures Effects(events, Links) + AllOwed(run[|moves|]) == Count(moves, EnqCall)
  {
    forall s, m, s1, e | Makes(s, m, s1, e) ensures AllOwed(s1) + Links(e) == AllOwed(s) + EnqCall(m.act) {
      OwedStep(s, m.t, m.act);
    }
    AllEffectsCalled(run, moves, events, Makes, AllOwed, Links, EnqCall);
    SumBounded(Owed(run[0]), 0);
  }

  /** So whatever the schedule, all calls together make only so many accesses. */
  lemma AllCallsEnd(width: nat, depth: nat, n: nat, run: seq<State>, moves: seq<Move<Action>>, events: seq<Event>)
    requires IsRunOf(width, depth, n, run, moves, events) && width >= 1 && depth >= 1
    ensures Count(moves, IsAccess) <= Allowance(Limit(width), n, 5 * Count(moves, EnqCall), Count(moves, IsCall))
  {
    LockFree(width, depth, n, run, moves, events);
    LinksCalled(width, depth, n, run, moves, events);
    AllowanceMonotone(Limit(width), n, 5 * Effects(events, Links), 5 * Count(moves, EnqCall), Count(moves, IsCall));
  }
}
