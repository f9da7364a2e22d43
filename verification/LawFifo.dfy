/** The get side of the elastic LaW queue at access level.  Dequeuers work out the row of the item they
    take from the get count and their own get window.  As long as that row is not below the item's own,
    each sub-queue is FIFO.  It always is for a count inside the get window, but the empty return of
    get_window hands back a descriptor with no such guard, and dequeue goes on with it if something was
    enqueued in between.  Then it depends on the widths: the row can only be too low for a sub-queue
    that took part in one window and in a later one, but not in one between them. */
module LawFifo {
  import opened Descriptor
  import opened History
  import opened LateralWindows
  import opened LawSteps
  import opened Schedule

  /** Window b is narrower than one before it and one after it. */
  ghost predicate Returns(wins: seq<Win>, a: nat, b: nat, c: nat) {
    0 < a < b < c < |wins| && wins[b].width < wins[a].width && wins[b].width < wins[c].width
  }

  /** No sub-queue that dropped out takes part again. */
  ghost predicate NoReturn(wins: seq<Win>) { forall a, b, c :: !Returns(wins, a, b, c) }

  function Before(wins: seq<Win>): seq<Win> { if wins == [] then [] else wins[..|wins| - 1] }

  /** Count is past window g, if the sub-queue takes part in it. */
  ghost predicate Beyond(wins: seq<Win>, i: nat, count: nat, g: nat) requires g < |wins| {
    i < wins[g].width ==> wins[g].max <= count
  }

  ghost predicate PastAll(wins: seq<Win>, i: nat, count: nat) {
    forall g :: 0 < g < |wins| - 1 ==> Beyond(wins, i, count, g)
  }

  /** A get count that may have fallen behind is past all windows but the last, and the widths return. */
  ghost predicate Late(wins: seq<Win>, i: nat, x: Sub) {
    !NoReturn(wins) && PastAll(wins, i, x.get.count)
  }

  /** The get node does not pass the put node, and its row is at most the get count, unless the sub-queue
      is late and that is allowed for. */
  ghost predicate GetOk(late: bool, wins: seq<Win>, i: nat, x: Sub) {
    && x.get.node <= x.put.node && x.get.node < |x.rows|
    && (x.rows[x.get.node] <= x.get.count || (late && Late(wins, i, x)))
  }

  ghost predicate GetForward(x: Sub, y: Sub) {
    && x.list <= y.list && x.put.node <= y.put.node && x.get.node <= y.get.node
    && (x.get.node == y.get.node ==> x.get == y.get)
  }

  /** What a dequeuer knows of the sub-queue it is at. */
  ghost predicate GetFacts(s: State, th: Thread) {
    && th.index < |s.subs|
    && var x := s.subs[th.index];
       match th.pc
       case GetReadCount(head) => head <= x.get.node
       case GetReadPut(head, _) => head <= x.get.node
       case GetCheck(head, _, _) => head <= x.get.node
       case GetShift(head, _) => head <= x.get.node
       case DeqTail(head, _) => head <= x.get.node
       case DeqTailNode(head, _, _) => head <= x.get.node
       case DeqTailCount(head, _, tail) => head <= x.get.node && head <= tail <= x.put.node
       case DeqNext(head, _, tail, _) => head <= x.get.node && head <= tail <= x.put.node
       case DeqSafe(head, count) =>
         head <= x.get.node && th.head + 1 < th.win && th.head + 1 < |s.wins| && count < s.wins[th.head + 1].max
       case DeqSwing(head, count, next) => head <= x.get.node &&
           (x.get == Desc(head, count) ==> next && head < x.put.node)
       case _ => true
  }

  ghost predicate GetInv(late: bool, s: State) {
    && Inv(s) && !s.crashed && s.wins[0].max == 0
    && (forall i {:trigger s.subs[i]} :: 0 <= i < |s.subs| ==> GetOk(late, s.wins, i, s.subs[i]))
    && (forall t {:trigger GetFacts(s, s.threads[t])} :: 0 <= t < |s.threads| ==> GetFacts(s, s.threads[t]))
  }

  /** What makes the row after count, in window w, no lower than that of the next item: count is inside the
      window, or followed by a row of a window the sub-queue takes part in, or past the item already. */
  ghost predicate OnTrack(wins: seq<Win>, i: nat, x: Sub, w: nat, count: nat) requires w < |wins| {
    count < wins[w].max || Home(wins, i, count + 1) || (x.get.node + 1 < |x.rows| && x.rows[x.get.node + 1] <= count)
  }

  /** The step takes an item by a descriptor that is not on track. */
  ghost predicate Strays(s: State, t: nat, act: Action)
    requires Enabled(s, t, act)
  {
    var th := s.threads[t];
    act.Go? && th.pc.DeqSwing? && s.subs[th.index].get == Desc(th.pc.head, th.pc.count) &&
        !OnTrack(s.wins, th.index, s.subs[th.index], th.head + 1, th.pc.count)
  }

  /** A step is in order if it does not stray, or, where late sub-queues are allowed for, if no window is
      begun after one that returned to a greater width. */
  ghost predicate Orderly(late: bool, s: State, t: nat, act: Action)
    requires Enabled(s, t, act)
  {
    if late then NoReturn(Before(Step(s, t, act).0.wins)) else !Strays(s, t, act)
  }

  // ---------------------------------------------------------------------------------------------
  // When the row worked out is right

  lemma RowHasHome(wins: seq<Win>, i: nat, w: nat, count: nat)
    requires 0 < w < |wins| && i < wins[w].width && 1 <= wins[w].depth <= wins[w].max
    requires count < wins[w].max || Home(wins, i, count + 1)
    ensures Home(wins, i, NextRow(wins[w], count))
  {
    if count < wins[w].max { assert HomeIn(wins, i, NextRow(wins[w], count), w); }
  }

  /** A row of the sub-queue above its get node's row is not below the next node's row. */
  lemma NotBelowNext(wins: seq<Win>, tail: nat, i: nat, x: Sub, row: nat)
    requires SubOk(wins, tail, i, x) && x.get.node < x.put.node && x.rows[x.get.node] <= x.get.count
    requires x.get.count < row && Home(wins, i, row)
    ensures x.rows[x.get.node + 1] <= row
  {
    var h := x.get.node;
    if row <= x.put.count {
      assert row in x.rows;
      var a :| 0 <= a < |x.rows| && x.rows[a] == row;
      forall b: nat | b <= h ensures x.rows[b] <= x.rows[h] {}
      assert a > h + 1 ==> x.rows[h + 1] < x.rows[a];
    } else {
      assert h + 1 < x.put.node ==> x.rows[h + 1] < x.rows[x.put.node];
    }
  }

  /** Exactly when the get count keeps up with the rows: as long as it did so far, the row a dequeuer in
      window w works out is that of the next item or above if and only if it is on track. */
  lemma KeepsUpExactly(wins: seq<Win>, maxWidth: Width, tail: nat, i: nat, x: Sub, w: nat)
    requires Lateral(wins, maxWidth) && SubOk(wins, tail, i, x)
    requires x.get.node < x.put.node && x.rows[x.get.node] <= x.get.count
    requires 0 < w <= tail && i < wins[w].width
    ensures x.rows[x.get.node + 1] <= NextRow(wins[w], x.get.count) <==> OnTrack(wins, i, x, w, x.get.count)
  {
    var c := x.get.count;
    if c < wins[w].max || Home(wins, i, c + 1) {
      RowHasHome(wins, i, w, c);
      NotBelowNext(wins, tail, i, x, NextRow(wins[w], c));
    } else {
      assert x.rows[x.get.node] < x.rows[x.get.node + 1] && x.rows[x.get.node + 1] in x.rows;
    }
  }

  /** Every row up to the max of the last window lies in some window. */
  lemma {:induction false} WindowOf(wins: seq<Win>, r: nat, k: nat) returns (q: nat)
    requires |wins| > k >= 1 && wins[0].max < r <= wins[k].max
    requires forall j, l {:trigger Adjacent(wins[j], wins[l])} :: 0 <= j && l == j + 1 < |wins| ==>
        Adjacent(wins[j], wins[l])
    ensures 0 < q <= k && Bottom(wins[q]) < r <= wins[q].max
  {
    assert Adjacent(wins[k - 1], wins[k]);
    if r > wins[k - 1].max { q := k; } else { q := WindowOf(wins, r, k - 1); }
  }

  /** Off track there is a window, between the dequeuer's own and that of the next item, in which the
      sub-queue has no part. */
  lemma StrayReturns(wins: seq<Win>, maxWidth: Width, tail: nat, i: nat, x: Sub, w: nat, count: nat)
    returns (q: nat, p: nat)
    requires Lateral(wins, maxWidth) && wins[0].max == 0 && SubOk(wins, tail, i, x) && x.get.node < x.put.node
    requires 0 < w < |wins| && i < wins[w].width && !OnTrack(wins, i, x, w, count)
    ensures Returns(wins, w, q, p) && wins[q].width <= i < wins[p].width && Bottom(wins[q]) <= count
  {
    var r := x.rows[x.get.node + 1];
    assert x.rows[0] < r && r in x.rows && Home(wins, i, r);
    p :| HomeIn(wins, i, r, p);
    q := WindowOf(wins, count + 1, p);
    assert !HomeIn(wins, i, count + 1, q);
    MaxAhead(wins, maxWidth, q, w);
  }

  /** So where no window was begun after a return, the count still is past all windows but the last. */
  lemma StrayIsLate(wins: seq<Win>, maxWidth: Width, tail: nat, i: nat, x: Sub, w: nat, count: nat)
    requires Lateral(wins, maxWidth) && wins[0].max == 0 && SubOk(wins, tail, i, x) && x.get.node < x.put.node
    requires 0 < w < |wins| && i < wins[w].width && !OnTrack(wins, i, x, w, count)
    requires NoReturn(Before(wins))
    ensures !NoReturn(wins) && PastAll(wins, i, count + 1)
  {
    var q, p := StrayReturns(wins, maxWidth, tail, i, x, w, count);
    var past := count + 1;
    forall g | 0 < g < |wins| - 1 ensures Beyond(wins, i, past, g) {
      if g < q { assert Above(wins, g, q); }
      if g > q { assert !Returns(Before(wins), w, q, g); }
    }
  }

  // ---------------------------------------------------------------------------------------------
  // Every step on track keeps the get side in order

  lemma FactsStable(s: State, s1: State, th: Thread)
    requires GetFacts(s, th) && s.wins <= s1.wins && |s1.subs| == |s.subs|
    requires GetForward(s.subs[th.index], s1.subs[th.index])
    ensures GetFacts(s1, th)
  {
  }

  ghost predicate SameGet(s: State, s1: State) {
    && s1.crashed == s.crashed && |s1.subs| == |s.subs|
    && forall i :: 0 <= i < |s.subs| ==> s1.subs[i].get == s.subs[i].get && s.subs[i].rows <= s1.subs[i].rows
  }

  /** Only a swing changes the get descriptor. */
  lemma GetUntouched(s: State, t: nat, act: Action)
    requires Inv(s) && Enabled(s, t, act) && !(act.Go? && s.threads[t].pc.DeqSwing?)
    ensures SameGet(s, Step(s, t, act).0)
  {
    if act.Go? && Writing(s.threads[t].pc) { WriteLeavesGet(s, t, act); }
    else if act.Go? { ReadOnly(s, t, act); }
  }

  lemma WriteLeavesGet(s: State, t: nat, act: Action)
    requires Enabled(s, t, act) && act.Go? && Writing(s.threads[t].pc) && !s.threads[t].pc.DeqSwing?
    ensures SameGet(s, Step(s, t, act).0)
  {
  }

  lemma ShortcutFinds(late: bool, s: State, th: Thread)
    requires Inv(s) && ThreadOk(s, th) && GetFacts(s, th) && th.pc.DeqSafe?
    requires GetOk(late, s.wins, th.index, s.subs[th.index])
    ensures var x := s.subs[th.index]; x.get == Desc(th.pc.head, th.pc.count) ==>
         th.pc.head < x.put.node && th.pc.head + 1 < |x.list|
  {
    var x := s.subs[th.index];
    assert SubOk(s.wins, s.tail, th.index, x) && Filled(s.wins, th.index, x, th.head + 1);
    assert Late(s.wins, th.index, x) ==> Beyond(s.wins, th.index, x.get.count, th.head + 1);
  }

  lemma MaxAhead(wins: seq<Win>, maxWidth: Width, a: nat, b: nat)
    requires Lateral(wins, maxWidth) && a < |wins| && b < |wins|
    ensures wins[a].max > wins[b].max <==> a > b
  {
    if a > b { assert Above(wins, b, a); }
    if a < b { assert Above(wins, a, b); }
  }

  lemma ReadFacts(late: bool, s: State, th: Thread, r: nat, nodeFirst: bool)
    requires Inv(s) && Named(s, th) && GetFacts(s, th) && ThreadOk(s, th)
    requires GetOk(late, s.wins, th.index, s.subs[th.index])
    requires var pc := th.pc;
             || pc.GetEnter? || pc.GetLoad? || pc.GetRead? || pc.GetReadNode? || pc.GetReadCount? || pc.GetReadPut?
             || pc.HeadReload?
    ensures GetFacts(s, LookGet(s, th, r, nodeFirst))
  {
  }

  lemma CheckFacts(s: State, th: Thread, r: nat, nodeFirst: bool)
    requires Inv(s) && Named(s, th) && GetFacts(s, th) && ThreadOk(s, th) && (th.pc.GetCheck? || th.pc.GetShift?)
    ensures GetFacts(s, LookGet(s, th, r, nodeFirst))
  {
    MaxAhead(s.wins, s.maxWidth, th.win, th.head + 1);
  }

  lemma DeqFacts(late: bool, s: State, th: Thread, nodeFirst: bool)
    requires Inv(s) && Named(s, th) && GetFacts(s, th) && ThreadOk(s, th)
    requires GetOk(late, s.wins, th.index, s.subs[th.index])
    requires var pc := th.pc;
             pc.DeqTail? || pc.DeqTailNode? || pc.DeqTailCount? || pc.DeqNext? || pc.DeqSafe? || pc.DeqWindow?
    ensures GetFacts(s, LookDeq(s, th, nodeFirst))
  {
    assert SubOk(s.wins, s.tail, th.index, s.subs[th.index]);
    if th.pc.DeqSafe? { ShortcutFinds(late, s, th); }
  }

  lemma LookFacts(late: bool, s: State, t: nat, r: nat, nodeFirst: bool)
    requires GetInv(late, s) && t < |s.threads| && Named(s, s.threads[t]) && !Writing(s.threads[t].pc)
    ensures GetFacts(s, Look(s, s.threads[t], r, nodeFirst))
  {
    var th := s.threads[t];
    var pc := th.pc;
    assert GetFacts(s, th) && ThreadOk(s, th) && GetOk(late, s.wins, th.index, s.subs[th.index]);
    if pc.GetCheck? || pc.GetShift? { CheckFacts(s, th, r, nodeFirst); }
    else if pc.DeqTail? || pc.DeqTailNode? || pc.DeqTailCount? || pc.DeqNext? || pc.DeqSafe? || pc.DeqWindow? {
      DeqFacts(late, s, th, nodeFirst);
    }
    else if Dequeuing(pc) { ReadFacts(late, s, th, r, nodeFirst); }
    else { PutFacts(s, t, r, nodeFirst); }
  }

  lemma PutFacts(s: State, t: nat, r: nat, nodeFirst: bool)
    requires Inv(s) && t < |s.threads| && Named(s, s.threads[t]) && !Dequeuing(s.threads[t].pc)
    requires !Writing(s.threads[t].pc)
    ensures GetFacts(s, Look(s, s.threads[t], r, nodeFirst))
  {
    LookOk(s, t, r, nodeFirst);
    PutStaysPut(s, s.threads[t], r, nodeFirst);
  }

  /** Places of which GetFacts asks nothing more than an index. */
  ghost predicate Free(pc: Pc) {
    !Dequeuing(pc) || pc.GetEnter? || pc.GetLoad? || pc.GetRead? || pc.GetReadNode? || pc.HeadMove? || pc.HeadReload?
    || pc.DeqWindow? || pc.DeqHelp?
  }

  lemma PutStaysPut(s: State, th: Thread, r: nat, nodeFirst: bool)
    requires Named(s, th) && !Dequeuing(th.pc)
    ensures Free(Look(s, th, r, nodeFirst).pc)
  {
  }

  /** The descriptor a swing in order installs is in order, and the item was there. */
  lemma SwingFacts(late: bool, s: State, t: nat, act: Action)
    requires GetInv(late, s) && Enabled(s, t, act) && Orderly(late, s, t, act) && act.Go? && s.threads[t].pc.DeqSwing?
    requires var th := s.threads[t]; s.subs[th.index].get == Desc(th.pc.head, th.pc.count)
    ensures var th, x := s.threads[t], s.subs[s.threads[t].index];
            var y := x.(get := Desc(th.pc.head + 1, NextRow(s.wins[th.head + 1], th.pc.count)));
            th.pc.next && th.pc.head < x.put.node && GetOk(late, s.wins, th.index, y)
  {
    var th := s.threads[t];
    var i, x, w, count := th.index, s.subs[th.index], th.head + 1, th.pc.count;
    assert ThreadOk(s, th) && GetFacts(s, th) && GetOk(late, s.wins, i, x) && SubOk(s.wins, s.tail, i, x);
    if x.rows[x.get.node] > count {
      StillLate(s.wins, i, x, NextRow(s.wins[w], count));
    } else if OnTrack(s.wins, i, x, w, count) {
      KeepsUpExactly(s.wins, s.maxWidth, s.tail, i, x, w);
    } else {
      StrayIsLate(s.wins, s.maxWidth, s.tail, i, x, w, count);
      assert NextRow(s.wins[w], count) == count + 1;
    }
  }

  lemma StillLate(wins: seq<Win>, i: nat, x: Sub, count: nat)
    requires Late(wins, i, x) && x.get.count <= count
    ensures Late(wins, i, x.(get := Desc(x.get.node + 1, count)))
  {
    forall g | 0 < g < |wins| - 1 ensures Beyond(wins, i, count, g) { assert Beyond(wins, i, x.get.count, g); }
  }

  /** What a step in order does to each sub-queue. */
  lemma SubsKept(late: bool, s: State, t: nat, act: Action, i: nat)
    requires GetInv(late, s) && Enabled(s, t, act) && Orderly(late, s, t, act) && i < |s.subs|
    ensures var s1 := Step(s, t, act).0;
            && |s1.subs| == |s.subs| && GetOk(late, s1.wins, i, s1.subs[i])
            && GetForward(s.subs[i], s1.subs[i]) && !s1.crashed
  {
    var s1, th := Step(s, t, act).0, s.threads[t];
    StepKeeps(s, t, act);
    assert GetOk(late, s.wins, i, s.subs[i]) && SubOk(s.wins, s.tail, i, s.subs[i]);
    assert SubForward(s.subs[i], s1.subs[i]);
    if act.Go? && th.pc.DeqSwing? {
      SwingKept(late, s, t, act, i);
    } else {
      GetUntouched(s, t, act);
    }
  }

  lemma SwingKept(late: bool, s: State, t: nat, act: Action, i: nat)
    requires GetInv(late, s) && Enabled(s, t, act) && Orderly(late, s, t, act) && i < |s.subs| && act.Go?
    requires s.threads[t].pc.DeqSwing?
    ensures var s1 := Step(s, t, act).0;
            && |s1.subs| == |s.subs| && GetOk(late, s1.wins, i, s1.subs[i])
            && s.subs[i].get.node <= s1.subs[i].get.node && !s1.crashed
    ensures var s1 := Step(s, t, act).0; s.subs[i].get.node == s1.subs[i].get.node ==> s.subs[i].get == s1.subs[i].get
  {
    var th := s.threads[t];
    assert ThreadOk(s, th) && GetFacts(s, th);
    assert GetOk(late, s.wins, th.index, s.subs[th.index]) && GetOk(late, s.wins, i, s.subs[i]);
    if s.subs[th.index].get == Desc(th.pc.head, th.pc.count) { SwingFacts(late, s, t, act); }
  }

  ghost predicate Freed(s: State, t: nat, s1: State) {
    && t < |s.threads| == |s1.threads| && |s1.subs| == |s.subs|
    && (s1.crashed || (s1.threads[t].index == s.threads[t].index && Free(s1.threads[t].pc)))
  }

  lemma ShiftFrees(s: State, t: nat, act: Action)
    requires Enabled(s, t, act) && act.Go?
    requires s.threads[t].pc.ShiftLink? || s.threads[t].pc.ShiftMove? || s.threads[t].pc.HeadMove?
    ensures Freed(s, t, Step(s, t, act).0)
  {
  }

  lemma SwapFrees(s: State, t: nat, act: Action)
    requires Enabled(s, t, act) && act.Go? && (Swapping(s.threads[t].pc))
    ensures Freed(s, t, Step(s, t, act).0)
  {
  }

  lemma LinkFrees(s: State, t: nat, act: Action)
    requires Enabled(s, t, act) && act.Go? && (s.threads[t].pc.EnqLink? || s.threads[t].pc.DeqSwing?)
    ensures Freed(s, t, Step(s, t, act).0)
  {
  }

  lemma WriteFrees(s: State, t: nat, act: Action)
    requires Enabled(s, t, act) && act.Go? && Writing(s.threads[t].pc)
    ensures Freed(s, t, Step(s, t, act).0)
  {
    var pc := s.threads[t].pc;
    if Swapping(pc) { SwapFrees(s, t, act); }
    else if pc.EnqLink? || pc.DeqSwing? { LinkFrees(s, t, act); }
    else { ShiftFrees(s, t, act); }
  }

  lemma CallFrees(late: bool, s: State, t: nat, act: Action)
    requires GetInv(late, s) && Enabled(s, t, act) && !act.Go?
    ensures var s1 := Step(s, t, act).0; |s1.threads| == |s.threads| && GetFacts(s1, s1.threads[t])
  {
    StepKeeps(s, t, act);
    assert GetFacts(s, s.threads[t]) && ThreadOk(Step(s, t, act).0, Step(s, t, act).0.threads[t]);
  }

  /** After its own step a thread knows what its new place asks for. */
  lemma OwnFacts(late: bool, s: State, t: nat, act: Action)
    requires GetInv(late, s) && Enabled(s, t, act) && !Step(s, t, act).0.crashed
    ensures var s1 := Step(s, t, act).0; |s1.threads| == |s.threads| && GetFacts(s1, s1.threads[t])
  {
    if !act.Go? {
      CallFrees(late, s, t, act);
    } else if Writing(s.threads[t].pc) {
      WriteFrees(s, t, act);
    } else {
      LookFacts(late, s, t, act.r, act.nodeFirst);
      ReadOnly(s, t, act);
    }
  }

  lemma ReadOnly(s: State, t: nat, act: Action)
    requires Enabled(s, t, act) && act.Go? && !Writing(s.threads[t].pc)
    ensures var th1 := Look(s, s.threads[t], act.r, act.nodeFirst);
            Step(s, t, act) == (s.At(t, th1), Answer(s.threads[t], th1))
  {
  }

  ghost predicate Unmoved(s: State, s1: State, t: nat) {
    |s1.threads| == |s.threads| && forall u :: 0 <= u < |s.threads| && u != t ==> s1.threads[u] == s.threads[u]
  }

  lemma WriteMovesOne(s: State, t: nat, act: Action)
    requires Enabled(s, t, act) && act.Go? && Writing(s.threads[t].pc)
    ensures Unmoved(s, Step(s, t, act).0, t)
  {
  }

  lemma OthersUnmoved(s: State, t: nat, act: Action)
    requires Enabled(s, t, act)
    ensures Unmoved(s, Step(s, t, act).0, t)
  {
    if act.Go? && Writing(s.threads[t].pc) { WriteMovesOne(s, t, act); }
    else if act.Go? { ReadOnly(s, t, act); }
  }

  /** Every step on track keeps the get side in order: no NULL is followed and no get node overtakes. */
  lemma GetKept(late: bool, s: State, t: nat, act: Action)
    requires GetInv(late, s) && Enabled(s, t, act) && Orderly(late, s, t, act)
    ensures GetInv(late, Step(s, t, act).0)
  {
    var s1 := Step(s, t, act).0;
    StepKeeps(s, t, act);
    SubsKept(late, s, t, act, 0);
    forall i | 0 <= i < |s1.subs|
      ensures GetOk(late, s1.wins, i, s1.subs[i]) && GetForward(s.subs[i], s1.subs[i])
    {
      SubsKept(late, s, t, act, i);
    }
    OthersUnmoved(s, t, act);
    OwnFacts(late, s, t, act);
    forall u | 0 <= u < |s1.threads| ensures GetFacts(s1, s1.threads[u]) {
      if u != t {
        assert GetFacts(s, s.threads[u]);
        FactsStable(s, s1, s.threads[u]);
      }
    }
  }

  ghost predicate ToldBy(s: State, s1: State, e: Event, i: nat) {
    && i < |s.subs| == |s1.subs|
    && Tells(e, i, s.subs[i].list, s.subs[i].get.node, s1.subs[i].list, s1.subs[i].get.node)
  }

  lemma SilentTells(s: State, t: nat, act: Action, i: nat)
    requires Enabled(s, t, act) && i < |s.subs| && !(act.Go? && (s.threads[t].pc.EnqLink? || s.threads[t].pc.DeqSwing?))
    ensures ToldBy(s, Step(s, t, act).0, Step(s, t, act).1, i)
  {
    assert s.subs[i].list + [] == s.subs[i].list;
  }

  lemma LinkTells(s: State, t: nat, act: Action, i: nat)
    requires Enabled(s, t, act) && i < |s.subs| && act.Go? && s.threads[t].pc.EnqLink?
    ensures ToldBy(s, Step(s, t, act).0, Step(s, t, act).1, i)
  {
    assert s.subs[i].list + [] == s.subs[i].list;
  }

  lemma SwingTells(late: bool, s: State, t: nat, act: Action, i: nat)
    requires GetInv(late, s) && Enabled(s, t, act) && Orderly(late, s, t, act) && i < |s.subs| && act.Go?
    requires s.threads[t].pc.DeqSwing?
    ensures ToldBy(s, Step(s, t, act).0, Step(s, t, act).1, i)
  {
    var th := s.threads[t];
    assert ThreadOk(s, th) && GetFacts(s, th) && GetOk(late, s.wins, th.index, s.subs[th.index]) &&
        SubOk(s.wins, s.tail, th.index, s.subs[th.index]);
    assert s.subs[i].list + [] == s.subs[i].list;
    if s.subs[th.index].get == Desc(th.pc.head, th.pc.count) { SwingFacts(late, s, t, act); }
  }

  /** What a step on track does to the list and the get node of sub-queue i, told by its event. */
  lemma EventTells(late: bool, s: State, t: nat, act: Action, i: nat)
    requires GetInv(late, s) && Enabled(s, t, act) && Orderly(late, s, t, act) && i < |s.subs|
    ensures ToldBy(s, Step(s, t, act).0, Step(s, t, act).1, i)
  {
    if act.Go? && s.threads[t].pc.EnqLink? { LinkTells(s, t, act, i); }
    else if act.Go? && s.threads[t].pc.DeqSwing? { SwingTells(late, s, t, act, i); }
    else { SilentTells(s, t, act, i); }
  }

  // ---------------------------------------------------------------------------------------------
  // What holds over whole runs

  ghost predicate Makes(s: State, m: Move<Action>, s1: State, e: Event) {
    Enabled(s, m.t, m.act) && Step(s, m.t, m.act) == (s1, e)
  }

  ghost predicate IsRunOf(maxWidth: Width, width: nat, depth: nat, n: nat, run: seq<State>, moves: seq<Move<Action>>,
                          events: seq<Event>) {
    Chain(run, moves, events, Makes) && run[0] == Init(maxWidth, width, depth, n)
  }

  /** No item is taken off track. */
  ghost predicate StaysOnTrack(run: seq<State>, moves: seq<Move<Action>>) requires |run| == |moves| + 1 {
    forall i :: 0 <= i < |moves| ==>
         Enabled(run[i], moves[i].t, moves[i].act) && !Strays(run[i], moves[i].t, moves[i].act)
  }

  /** Either of two reasons for a run to be in order. */
  ghost predicate RunsOrderly(late: bool, run: seq<State>, moves: seq<Move<Action>>) requires |run| == |moves| + 1 {
    if late then NoReturn(Before(run[|moves|].wins)) else StaysOnTrack(run, moves)
  }

  lemma InitInOrder(late: bool, maxWidth: Width, width: nat, depth: nat, n: nat)
    requires 1 <= width <= maxWidth && depth >= 1
    ensures GetInv(late, Init(maxWidth, width, depth, n))
  {
    InitOk(maxWidth, width, depth, n);
  }

  ghost predicate Explained(events: seq<Event>, s: State, i: nat) requires i < |s.subs| {
    Explains(events, i, s.subs[i].list, s.subs[i].get.node)
  }

  lemma MakesExplained(late: bool, events: seq<Event>, s: State, m: Move<Action>, s1: State, e: Event, i: nat)
    requires GetInv(late, s) && Makes(s, m, s1, e) && Orderly(late, s, m.t, m.act)
    requires i < |s.subs| && Explained(events, s, i)
    ensures |s1.subs| == |s.subs| && Explained(events + [e], s1, i)
  {
    EventTells(late, s, m.t, m.act, i);
    ExplainsOn(events, e, i, s.subs[i].list, s.subs[i].get.node, s1.subs[i].list, s1.subs[i].get.node);
  }

  /** Windows are only ever added. */
  lemma WindowsStay(s: State, t: nat, act: Action)
    requires Enabled(s, t, act)
    ensures s.wins <= Step(s, t, act).0.wins
  {
  }

  lemma EarlierNoReturn(wins: seq<Win>, wins1: seq<Win>)
    requires wins <= wins1 && NoReturn(wins1)
    ensures NoReturn(wins)
  {
    forall a, b, c ensures !Returns(wins, a, b, c) { assert !Returns(wins1, a, b, c); }
  }

  lemma PrefixOrderly(late: bool, run: seq<State>, moves: seq<Move<Action>>, events: seq<Event>)
    requires Chain(run, moves, events, Makes) && moves != [] && RunsOrderly(late, run, moves)
    ensures var k := |moves| - 1;
            Enabled(run[k], moves[k].t, moves[k].act) && Orderly(late, run[k], moves[k].t, moves[k].act) &&
                RunsOrderly(late, run[..k + 1], moves[..k])
  {
    var k := |moves| - 1;
    assert Makes(run[k], moves[k], run[k + 1], events[k]);
    if late {
      WindowsStay(run[k], moves[k].t, moves[k].act);
      EarlierNoReturn(Before(run[k].wins), Before(run[k + 1].wins));
    } else {
      forall i | 0 <= i < k
        ensures Enabled(run[i], moves[i].t, moves[i].act) && !Strays(run[i], moves[i].t, moves[i].act)
      {
      }
    }
  }

  lemma {:induction false} ReachableInOrder(late: bool, maxWidth: Width, width: nat, depth: nat, n: nat,
                                            run: seq<State>, moves: seq<Move<Action>>, events: seq<Event>)
    requires IsRunOf(maxWidth, width, depth, n, run, moves, events) && RunsOrderly(late, run, moves)
    requires 1 <= width <= maxWidth && depth >= 1
    ensures var s := run[|moves|];
            GetInv(late, s) && |s.subs| == maxWidth && ExplainedAll(events, s)
    decreases |moves|
  {
    InitInOrder(late, maxWidth, width, depth, n);
    if moves == [] {
      forall i | 0 <= i < maxWidth ensures Explained(events, run[0], i) {
        assert LinkedIn(events, i) == [] && [0] + LinkedIn(events, i) == [0];
      }
    } else {
      var k := |moves| - 1;
      ChainPrefix(run, moves, events, Makes);
      PrefixOrderly(late, run, moves, events);
      ReachableInOrder(late, maxWidth, width, depth, n, run[..k + 1], moves[..k], events[..k]);
      assert events == events[..k] + [events[k]];
      OnwardInOrder(late, events[..k], run[k], moves[k], run[k + 1], events[k]);
    }
  }

  ghost predicate ExplainedAll(events: seq<Event>, s: State) {
    forall i {:trigger s.subs[i]} :: 0 <= i < |s.subs| ==> Explained(events, s, i)
  }

  lemma OnwardInOrder(late: bool, events: seq<Event>, s: State, m: Move<Action>, s1: State, e: Event)
    requires GetInv(late, s) && Makes(s, m, s1, e) && Orderly(late, s, m.t, m.act) && ExplainedAll(events, s)
    ensures GetInv(late, s1) && |s1.subs| == |s.subs| && ExplainedAll(events + [e], s1)
  {
    GetKept(late, s, m.t, m.act);
    MakesExplained(late, events, s, m, s1, e, 0);
    forall i | 0 <= i < |s1.subs| ensures Explained(events + [e], s1, i) {
      assert Explained(events, s, i);
      MakesExplained(late, events, s, m, s1, e, i);
    }
  }

  /** Sub-queue i returned what was enqueued there, in that order, each once. */
  ghost predicate IsFifo(events: seq<Event>, x: Sub, i: nat) {
    TakenIn(events, i) <= LinkedIn(events, i) && x.get.node <= x.put.node
  }

  /** Each sub-queue is FIFO and returned nothing twice and nothing that was not enqueued there, its get
      node does not pass its put node, and no NULL was followed. */
  ghost predicate InOrder(s: State, events: seq<Event>) {
    !s.crashed && forall i :: 0 <= i < |s.subs| ==> IsFifo(events, s.subs[i], i)
  }

  /** Over every run on which no item is taken off track, whatever the widths. */
  lemma OnTrackFifo(maxWidth: Width, width: nat, depth: nat, n: nat, run: seq<State>, moves: seq<Move<Action>>,
                    events: seq<Event>)
    requires IsRunOf(maxWidth, width, depth, n, run, moves, events) && StaysOnTrack(run, moves)
    requires 1 <= width <= maxWidth && depth >= 1
    ensures InOrder(run[|moves|], events) && |run[|moves|].subs| == maxWidth
  {
    AllFifo(false, maxWidth, width, depth, n, run, moves, events);
  }

  /** Over every run on which no window was begun after one that returned to a greater width. */
  lemma SubQueuesFifo(maxWidth: Width, width: nat, depth: nat, n: nat, run: seq<State>, moves: seq<Move<Action>>,
                      events: seq<Event>)
    requires IsRunOf(maxWidth, width, depth, n, run, moves, events) && NoReturn(Before(run[|moves|].wins))
    requires 1 <= width <= maxWidth && depth >= 1
    ensures InOrder(run[|moves|], events) && |run[|moves|].subs| == maxWidth
  {
    AllFifo(true, maxWidth, width, depth, n, run, moves, events);
  }

  lemma AllFifo(late: bool, maxWidth: Width, width: nat, depth: nat, n: nat, run: seq<State>, moves: seq<Move<Action>>,
                events: seq<Event>)
    requires IsRunOf(maxWidth, width, depth, n, run, moves, events) && RunsOrderly(late, run, moves)
    requires 1 <= width <= maxWidth && depth >= 1
    ensures InOrder(run[|moves|], events) && |run[|moves|].subs| == maxWidth
  {
    ReachableInOrder(late, maxWidth, width, depth, n, run, moves, events);
    var s := run[|moves|];
    forall i | 0 <= i < |s.subs| ensures IsFifo(events, s.subs[i], i) {
      assert Explained(events, s, i) && GetOk(late, s.wins, i, s.subs[i]);
    }
  }
}
