/** Stretches of a run of the elastic LaW queue in which one thread at a time moves: whole enqueues and
    dequeues, and the searches they make.  Where an operation starts from is an index the thread may
    have come to by the random hops of an earlier one. */
module LawScript {
  import opened Descriptor
  import opened History
  import opened Search
  import opened LateralWindows
  import opened LawSteps
  import opened LawFifo
  import opened Schedule

  /** What a queue is created with, and how many threads there are. */
  datatype Setup = Setup(maxWidth: Width, width: nat, depth: nat, n: nat)

  ghost predicate Reaches(c: Setup, run: seq<State>, moves: seq<Move<Action>>, events: seq<Event>, s: State) {
    IsRunOf(c.maxWidth, c.width, c.depth, c.n, run, moves, events) && run[|moves|] == s
  }

  ghost predicate Reached(c: Setup, s: State) {
    exists run, moves, events :: Reaches(c, run, moves, events, s)
  }

  lemma Onward(c: Setup, s: State, t: nat, act: Action)
    requires Reached(c, s) && Enabled(s, t, act)
    ensures Reached(c, Step(s, t, act).0)
  {
    var run, moves, events :| Reaches(c, run, moves, events, s);
    var (s1, e) := Step(s, t, act);
    ChainOn(run, moves, events, Makes, Move(t, act), s1, e);
    assert Reaches(c, run + [s1], moves + [Move(t, act)], events + [e], s1);
  }

  /** Thread t is at th, all else as in s. */
  ghost predicate ReachedAt(c: Setup, s: State, t: nat, th: Thread) {
    t < |s.threads| && Reached(c, s.At(t, th))
  }

  lemma LookSame(s: State, t: nat, th: Thread, r: nat, nodeFirst: bool)
    requires t < |s.threads| && Named(s, th)
    ensures Named(s.At(t, th), th) && Look(s.At(t, th), th, r, nodeFirst) == Look(s, th, r, nodeFirst)
  {
  }

  /** One read, of the node first where there is a choice. */
  lemma Read(c: Setup, s: State, t: nat, th: Thread, r: nat)
    requires ReachedAt(c, s, t, th) && Named(s, th) && !s.crashed && !Writing(th.pc) && !th.pc.Idle?
    ensures ReachedAt(c, s, t, Look(s, th, r, true))
  {
    var s1 := s.At(t, th);
    LookSame(s, t, th, r, true);
    Onward(c, s1, t, Go(r, true));
    ReadOnly(s1, t, Go(r, true));
    assert s1.At(t, Look(s, th, r, true)) == s.At(t, Look(s, th, r, true));
  }

  // ---------------------------------------------------------------------------------------------
  // An enqueue

  /** The put search finds room where it is. */
  lemma SeeRoom(c: Setup, s: State, t: nat, th: Thread, v: int)
    requires ReachedAt(c, s, t, th) && Named(s, th) && !s.crashed && th.pc == PutRead(v) && th.win == s.tail
    requires s.subs[th.index].put.count < s.wins[s.tail].max
    ensures ReachedAt(c, s, t, th.To(EnqRecheck(v, s.subs[th.index].put.node, s.subs[th.index].put.count)))
  {
    var x := s.subs[th.index];
    Read(c, s, t, th, 0);
    Read(c, s, t, th.To(PutReadCount(v, x.put.node)), 0);
    Read(c, s, t, th.To(PutCheck(v, x.put.node, x.put.count)), 0);
  }

  lemma FindRoom(c: Setup, s: State, t: nat, th: Thread, v: int)
    requires ReachedAt(c, s, t, th) && Named(s, th) && !s.crashed && th.pc == PutRead(v) && th.win == s.tail
    requires var x := s.subs[th.index]; x.put.count < s.wins[s.tail].max && |x.list| == x.put.node + 1
    ensures ReachedAt(c, s, t, th.To(EnqLink(v, s.subs[th.index].put.node, s.subs[th.index].put.count)))
  {
    var x := s.subs[th.index];
    SeeRoom(c, s, t, th, v);
    Read(c, s, t, th.To(EnqRecheck(v, x.put.node, x.put.count)), 0);
    Read(c, s, t, th.To(EnqNext(v, x.put.node, x.put.count)), 0);
  }

  function Grown(s: State, i: nat, v: int): Sub
    requires i < |s.subs| && s.tail < |s.wins|
  {
    var x := s.subs[i];
    Confirmed(x.(list := x.list + [v]), NextRow(s.wins[s.tail], x.put.count))
  }

  /** The node is linked and confirmed. */
  lemma LinkAndConfirm(c: Setup, s: State, t: nat, th: Thread, v: int)
    requires ReachedAt(c, s, t, th) && Named(s, th) && !s.crashed && th.win == s.tail
    requires var x := s.subs[th.index]; th.pc == EnqLink(v, x.put.node, x.put.count) && |x.list| == x.put.node + 1
    ensures ReachedAt(c, s.SetSub(th.index, Grown(s, th.index, v)), t, th.To(Idle))
  {
    var i, x := th.index, s.subs[th.index];
    var s1 := s.At(t, th);
    Onward(c, s1, t, Go(0, true));
    var y := x.(list := x.list + [v]);
    var s2 := s.SetSub(i, y).At(t, th.To(EnqConfirm(x.put.node, x.put.count)));
    assert Step(s1, t, Go(0, true)).0 == s2;
    Onward(c, s2, t, Go(0, true));
    assert Step(s2, t, Go(0, true)).0 == s.SetSub(i, Grown(s, i, v)).At(t, th.To(Idle));
  }

  /** A whole enqueue at an index where there is room. */
  lemma Enqueue(c: Setup, s: State, t: nat, v: int, i: nat)
    requires Reached(c, s) && !s.crashed && t < |s.threads| && s.threads[t].pc.Idle? && Named(s, s.threads[t])
    requires i < s.maxWidth == |s.subs| && i < s.wins[s.tail].width
    requires var x := s.subs[i]; x.put.count < s.wins[s.tail].max && |x.list| == x.put.node + 1
    ensures ReachedAt(c, s.SetSub(i, Grown(s, i, v)), t, Thread(i, s.tail, s.threads[t].head, 0, 0, false, Idle))
  {
    var th := s.threads[t].(contention := false, index := i).To(PutEnter(v));
    Onward(c, s, t, CallEnqueue(v, i));
    assert Step(s, t, CallEnqueue(v, i)).0 == s.At(t, th);
    Read(c, s, t, th, 0);
    var th1 := Thread(i, s.tail, th.head, 0, 0, false, PutRead(v));
    FindRoom(c, s, t, th1, v);
    LinkAndConfirm(c, s, t, th1.To(EnqLink(v, s.subs[i].put.node, s.subs[i].put.count)), v);
  }

  // ---------------------------------------------------------------------------------------------
  // An enqueue that shifts the window first

  lemma SeeFull(c: Setup, s: State, t: nat, th: Thread, v: int)
    requires ReachedAt(c, s, t, th) && Named(s, th) && !s.crashed && th.pc == PutRead(v) && th.win == s.tail
    requires s.subs[th.index].put.count >= s.wins[s.tail].max
    ensures var w := s.wins[s.tail].width;
            ReachedAt(c, s, t, if th.hops < w then th.Hop(w, 0).To(PutRead(v)) else th.To(PutShift(v)))
  {
    var x := s.subs[th.index];
    Read(c, s, t, th, 0);
    Read(c, s, t, th.To(PutReadCount(v, x.put.node)), 0);
    Read(c, s, t, th.To(PutCheck(v, x.put.node, x.put.count)), 0);
  }

  ghost predicate WindowFull(s: State) requires s.tail < |s.wins| {
    forall i :: 0 <= i < |s.subs| && i < s.wins[s.tail].width ==> s.subs[i].put.count >= s.wins[s.tail].max
  }

  /** A search whose random hops all lead to index i passes a window from there, and comes back to it. */
  ghost predicate PassFrom(th: Thread, w: nat, i: nat) {
    && th.index < w < COUNTER && i < w && th.hops <= w && th.random <= RANDOM_HOPS
    && (th.hops > 0 ==> th.random == RANDOM_HOPS)
    && (th.random == RANDOM_HOPS ==> Start(w, th.index, th.hops) == i)
  }

  lemma SmallMod(i: nat, w: nat)
    requires i < w
    ensures i % w == i
  {
  }

  lemma HopFrom(th: Thread, w: nat, i: nat)
    requires PassFrom(th, w, i) && th.hops < w
    ensures PassFrom(th.Hop(w, i), w, i) && th.Hop(w, i).win == th.win && th.Hop(w, i).head == th.head
  {
    if th.random < RANDOM_HOPS {
      SmallMod(i, w);
    } else {
      assert Start(w, NextIndex(w, th.index), th.hops + 1) == Start(w, th.index, th.hops);
    }
  }

  lemma {:induction false} PassFullWindow(c: Setup, s: State, t: nat, th: Thread, v: int)
    requires ReachedAt(c, s, t, th) && Named(s, th) && !s.crashed && th.pc == PutRead(v) && th.win == s.tail
    requires WindowFull(s) && s.wins[s.tail].width <= |s.subs| && PassFrom(th, s.wins[s.tail].width, 0)
    ensures ReachedAt(c, s, t,
                      Thread(0, s.tail, th.head, s.wins[s.tail].width, RANDOM_HOPS, th.contention, PutShift(v)))
    decreases RANDOM_HOPS - th.random + s.wins[s.tail].width - th.hops
  {
    SeeFull(c, s, t, th, v);
    if th.hops < s.wins[s.tail].width {
      PassFullWindow(c, s, t, th.Hop(s.wins[s.tail].width, 0).To(PutRead(v)), v);
    } else {
      assert th.To(PutShift(v)) == Thread(0, s.tail, th.head, s.wins[s.tail].width, RANDOM_HOPS, th.contention,
                                          PutShift(v));
    }
  }

  /** The next window, with the width and depth that are set. */
  function Shifted(s: State): State requires s.tail < |s.wins| {
    s.(wins := s.wins + [Win(s.wins[s.tail].max + s.depth, s.width, s.depth)], tail := s.tail + 1)
  }

  lemma ReadSettings(c: Setup, s: State, t: nat, th: Thread, v: int)
    requires ReachedAt(c, s, t, th) && Named(s, th) && !s.crashed && th.pc == PutShift(v) && th.win == s.tail
    requires |s.wins| == s.tail + 1
    ensures ReachedAt(c, s, t, th.To(ShiftLink(v, s.depth, s.width)))
  {
    Read(c, s, t, th, 0);
    Read(c, s, t, th.To(ShiftDepth(v)), 0);
    Read(c, s, t, th.To(ShiftWidth(v, s.depth)), 0);
    CheckTwice(c, s, t, th.To(ShiftCheck(v, s.depth, s.width)), v);
  }

  lemma CheckTwice(c: Setup, s: State, t: nat, th: Thread, v: int)
    requires ReachedAt(c, s, t, th) && Named(s, th) && !s.crashed && th.win == s.tail && |s.wins| == s.tail + 1
    requires th.pc == ShiftCheck(v, s.depth, s.width)
    ensures ReachedAt(c, s, t, th.To(ShiftLink(v, s.depth, s.width)))
  {
    Read(c, s, t, th, 0);
    Read(c, s, t, th.To(ShiftNext(v, s.depth, s.width)), 0);
  }

  lemma LinkAndMove(c: Setup, s: State, t: nat, th: Thread, v: int)
    requires ReachedAt(c, s, t, th) && Named(s, th) && !s.crashed && th.win == s.tail && |s.wins| == s.tail + 1
    requires th.pc == ShiftLink(v, s.depth, s.width) && s.width >= 1
    ensures ReachedAt(c, Shifted(s), t, th.To(PutResync(v)))
  {
    var s1 := s.At(t, th);
    Onward(c, s1, t, Go(0, true));
    var s2 := s.(wins := Shifted(s).wins);
    assert Step(s1, t, Go(0, true)).0 == s2.At(t, th.To(ShiftReread(v)));
    Read(c, s2, t, th.To(ShiftReread(v)), 0);
    var s3 := s2.At(t, th.To(ShiftMove(v)));
    Onward(c, s3, t, Go(0, true));
    assert Step(s3, t, Go(0, true)).0 == Shifted(s).At(t, th.To(PutResync(v)));
  }

  /** The thread shifts a full window and enqueues at index 0 of the next one. */
  lemma EnqueueShifting(c: Setup, s: State, t: nat, v: int)
    requires Reached(c, s) && !s.crashed && t < |s.threads| && s.threads[t].pc.Idle? && Named(s, s.threads[t])
    requires s.maxWidth == |s.subs| >= s.wins[s.tail].width && WindowFull(s) && |s.wins| == s.tail + 1
    requires s.width >= 1 && s.depth >= 1 && s.subs[0].put.count <= s.wins[s.tail].max
    requires |s.subs[0].list| == s.subs[0].put.node + 1
    ensures var s1 := Shifted(s);
            ReachedAt(c, s1.SetSub(0, Grown(s1, 0, v)), t,
                      Thread(0, s1.tail, s.threads[t].head, 0, RANDOM_HOPS, false, Idle))
  {
    var th := s.threads[t].(contention := false, index := 0).To(PutEnter(v));
    Onward(c, s, t, CallEnqueue(v, 0));
    assert Step(s, t, CallEnqueue(v, 0)).0 == s.At(t, th);
    Read(c, s, t, th, 0);
    PassFullWindow(c, s, t, Thread(0, s.tail, th.head, 0, 0, false, PutRead(v)), v);
    ShiftPutWindow(c, s, t, Thread(0, s.tail, th.head, s.wins[s.tail].width, RANDOM_HOPS, false, PutShift(v)), v);
    EnqueueAfterShift(c, Shifted(s), t, Thread(0, s.tail + 1, th.head, 0, RANDOM_HOPS, false, PutRead(v)), v);
  }

  lemma ShiftPutWindow(c: Setup, s: State, t: nat, th: Thread, v: int)
    requires ReachedAt(c, s, t, th) && Named(s, th) && !s.crashed && th.pc == PutShift(v) && th.win == s.tail
    requires |s.wins| == s.tail + 1 && s.width >= 1 && th.index == 0
    ensures ReachedAt(c, Shifted(s), t, Thread(0, s.tail + 1, th.head, 0, th.random, th.contention, PutRead(v)))
  {
    ReadSettings(c, s, t, th, v);
    LinkAndMove(c, s, t, th.To(ShiftLink(v, s.depth, s.width)), v);
    Read(c, Shifted(s), t, th.To(PutResync(v)), 0);
  }

  lemma EnqueueAfterShift(c: Setup, s: State, t: nat, th: Thread, v: int)
    requires ReachedAt(c, s, t, th) && Named(s, th) && !s.crashed && th.pc == PutRead(v) && th.win == s.tail
    requires var x := s.subs[th.index]; x.put.count < s.wins[s.tail].max && |x.list| == x.put.node + 1
    ensures ReachedAt(c, s.SetSub(th.index, Grown(s, th.index, v)), t, th.To(Idle))
  {
    FindRoom(c, s, t, th, v);
    LinkAndConfirm(c, s, t, th.To(EnqLink(v, s.subs[th.index].put.node, s.subs[th.index].put.count)), v);
  }

  // ---------------------------------------------------------------------------------------------
  // Parts of a dequeue

  lemma StartDequeue(c: Setup, s: State, t: nat, i: nat)
    requires Reached(c, s) && !s.crashed && t < |s.threads| && s.threads[t].pc.Idle? && Named(s, s.threads[t])
    requires s.head + 1 < |s.wins| && i < |s.subs| && i < s.wins[s.threads[t].head + 1].width
    requires s.threads[t].head == s.head || i == 0
    ensures ReachedAt(c, s, t, Thread(i, s.tail, s.head, 0, 0, false, GetRead))
  {
    var th := s.threads[t].(contention := false, index := i).To(GetEnter);
    Onward(c, s, t, CallDequeue(i));
    assert Step(s, t, CallDequeue(i)).0 == s.At(t, th);
    Read(c, s, t, th, 0);
    Read(c, s, t, th.(win := s.tail).To(GetLoad), 0);
  }

  /** The put count a get search goes by, with put window win, in the window after head. */
  function Seen(s: State, win: nat, head: nat, i: nat): nat
    requires win < |s.wins| && head + 1 < |s.wins| && i < |s.subs|
  {
    if s.wins[win].max > s.wins[head + 1].max then Bottom(s.wins[win]) else s.subs[i].put.count
  }

  predicate Takeable(s: State, win: nat, head: nat, i: nat)
    requires win < |s.wins| && head + 1 < |s.wins| && i < |s.subs|
  {
    s.subs[i].get.count < s.wins[head + 1].max && s.subs[i].get.count < Seen(s, win, head, i)
  }

  lemma ReadGet(c: Setup, s: State, t: nat, th: Thread, r: nat)
    requires ReachedAt(c, s, t, th) && Named(s, th) && !s.crashed
    requires th.pc.GetRead? || th.pc.GetReadCount? || th.pc.GetReadPut? || th.pc.GetCheck? || th.pc.GetShift? ||
        th.pc.HeadReload?
    ensures ReachedAt(c, s, t, LookGet(s, th, r, true))
  {
    Read(c, s, t, th, r);
  }

  lemma ReadDeq(c: Setup, s: State, t: nat, th: Thread)
    requires ReachedAt(c, s, t, th) && Named(s, th) && !s.crashed
    requires th.pc.DeqTail? || th.pc.DeqTailCount? || th.pc.DeqNext? || th.pc.DeqSafe?
    ensures ReachedAt(c, s, t, LookDeq(s, th, true))
  {
    Read(c, s, t, th, 0);
  }

  lemma ReadHalves(c: Setup, s: State, t: nat, th: Thread)
    requires ReachedAt(c, s, t, th) && Named(s, th) && !s.crashed && th.pc.GetRead?
    ensures var x := s.subs[th.index];
            ReachedAt(c, s, t, th.To(GetCheck(x.get.node, x.get.count, Seen(s, th.win, th.head, th.index))))
  {
    var x := s.subs[th.index];
    ReadGet(c, s, t, th, 0);
    ReadGet(c, s, t, th.To(GetReadCount(x.get.node)), 0);
    ReadGet(c, s, t, th.To(GetReadPut(x.get.node, x.get.count)), 0);
  }

  /** One turn of the get search: take, hop, or give up. */
  lemma Turn(c: Setup, s: State, t: nat, th: Thread, r: nat)
    requires ReachedAt(c, s, t, th) && Named(s, th) && !s.crashed && th.pc.GetRead? && th.head == s.head
    ensures var x, w := s.subs[th.index], s.wins[th.head + 1].width;
            ReachedAt(c, s, t, if Takeable(s, th.win, th.head, th.index) then Returned(s, th, x.get.node, x.get.count)
                            else if th.hops != w then th.Hop(w, r).To(GetRead)
                            else th.To(GetShift(x.get.node, x.get.count)))
  {
    var x := s.subs[th.index];
    ReadHalves(c, s, t, th);
    ReadGet(c, s, t, th.To(GetCheck(x.get.node, x.get.count, Seen(s, th.win, th.head, th.index))), r);
  }

  ghost predicate NothingIn(s: State, win: nat, head: nat)
    requires win < |s.wins| && head + 1 < |s.wins|
  {
    forall j :: 0 <= j < |s.subs| && j < s.wins[head + 1].width ==> !Takeable(s, win, head, j)
  }

  ghost predicate PassingDrained(c: Setup, s: State, t: nat, th: Thread, i: nat) {
    && ReachedAt(c, s, t, th) && Named(s, th) && !s.crashed && th.pc.GetRead? && th.head == s.head
    && NothingIn(s, th.win, th.head) && s.wins[th.head + 1].width <= |s.subs|
    && PassFrom(th, s.wins[th.head + 1].width, i)
  }

  lemma PassOne(c: Setup, s: State, t: nat, th: Thread, i: nat)
    requires PassingDrained(c, s, t, th, i) && th.hops < s.wins[th.head + 1].width
    ensures PassingDrained(c, s, t, th.Hop(s.wins[th.head + 1].width, i).To(GetRead), i)
  {
    HopFrom(th, s.wins[th.head + 1].width, i);
    assert !Takeable(s, th.win, th.head, th.index);
    HopOn(c, s, t, th, i);
  }

  lemma HopOn(c: Setup, s: State, t: nat, th: Thread, r: nat)
    requires ReachedAt(c, s, t, th) && Named(s, th) && !s.crashed && th.pc.GetRead? && th.head == s.head
    requires !Takeable(s, th.win, th.head, th.index) && th.hops != s.wins[th.head + 1].width
    ensures ReachedAt(c, s, t, th.Hop(s.wins[th.head + 1].width, r).To(GetRead))
  {
    Turn(c, s, t, th, r);
  }

  /** A search that finds nothing passes the whole window. */
  lemma {:induction false} PassDrainedWindow(c: Setup, s: State, t: nat, th: Thread, i: nat)
    requires PassingDrained(c, s, t, th, i)
    ensures var x := s.subs[i];
            ReachedAt(c, s, t, Thread(i, th.win, th.head, s.wins[th.head + 1].width, RANDOM_HOPS, th.contention,
                                      GetShift(x.get.node, x.get.count)))
    decreases RANDOM_HOPS - th.random + s.wins[th.head + 1].width - th.hops
  {
    var w := s.wins[th.head + 1].width;
    if th.hops < w {
      PassOne(c, s, t, th, i);
      PassDrainedWindow(c, s, t, th.Hop(w, i).To(GetRead), i);
    } else {
      assert !Takeable(s, th.win, th.head, th.index);
      Turn(c, s, t, th, i);
      var x := s.subs[i];
      assert th.To(GetShift(x.get.node, x.get.count)) == Thread(i, th.win, th.head, w, RANDOM_HOPS, th.contention,
                                                                 GetShift(x.get.node, x.get.count));
    }
  }

  function GetAt(s: State, t: nat, th: Thread, head: nat, count: nat): State
    requires th.index < |s.subs| && th.head + 1 < |s.wins| && t < |s.threads|
  {
    s.SetSub(th.index, s.subs[th.index].(get := Desc(head + 1, NextRow(s.wins[th.head + 1], count)))).At(t, th.To(Idle))
  }

  lemma Swing(c: Setup, s: State, t: nat, th: Thread, head: nat, count: nat)
    requires ReachedAt(c, s, t, th) && Named(s, th) && !s.crashed && th.pc == DeqSwing(head, count, true)
    requires s.subs[th.index].get == Desc(head, count)
    ensures Reached(c, GetAt(s, t, th, head, count))
  {
    var s1 := s.At(t, th);
    Onward(c, s1, t, Go(0, true));
    assert Step(s1, t, Go(0, true)).0 == GetAt(s, t, th, head, count);
  }

  /** The item in front is there and is taken, on either way. */
  lemma TakeIt(c: Setup, s: State, t: nat, th: Thread)
    requires ReachedAt(c, s, t, th) && Named(s, th) && !s.crashed && th.pc.GetRead? && th.head == s.head
    requires Takeable(s, th.win, th.head, th.index)
    requires var x := s.subs[th.index]; x.get.node + 1 < |x.list| && x.get.node != x.put.node
    ensures Reached(c, GetAt(s, t, th, s.subs[th.index].get.node, s.subs[th.index].get.count))
  {
    var x := s.subs[th.index];
    Turn(c, s, t, th, 0);
    FindNext(c, s, t, th, x.get.node, x.get.count);
    Swing(c, s, t, th.To(DeqSwing(x.get.node, x.get.count, true)), x.get.node, x.get.count);
  }

  lemma FindNext(c: Setup, s: State, t: nat, th: Thread, head: nat, count: nat)
    requires Named(s, th) && !s.crashed && ReachedAt(c, s, t, Returned(s, th, head, count))
    requires var x := s.subs[th.index]; head + 1 < |x.list| && head != x.put.node
    ensures ReachedAt(c, s, t, th.To(DeqSwing(head, count, true)))
  {
    if s.wins[th.win].max > s.wins[th.head + 1].max {
      ReadDeq(c, s, t, th.To(DeqSafe(head, count)));
    } else {
      ReadTail(c, s, t, th, head, count);
    }
  }

  lemma ReadTail(c: Setup, s: State, t: nat, th: Thread, head: nat, count: nat)
    requires ReachedAt(c, s, t, th.To(DeqTail(head, count))) && Named(s, th.To(DeqTail(head, count))) && !s.crashed
    requires var x := s.subs[th.index]; head != x.put.node && head + 1 < |x.list|
    ensures ReachedAt(c, s, t, th.To(DeqSwing(head, count, true)))
  {
    var x := s.subs[th.index];
    ReadTailHalves(c, s, t, th, head, count);
    ReadDeq(c, s, t, th.To(DeqNext(head, count, x.put.node, x.put.count)));
  }

  lemma ReadTailHalves(c: Setup, s: State, t: nat, th: Thread, head: nat, count: nat)
    requires ReachedAt(c, s, t, th.To(DeqTail(head, count))) && Named(s, th.To(DeqTail(head, count))) && !s.crashed
    ensures var x := s.subs[th.index]; ReachedAt(c, s, t, th.To(DeqNext(head, count, x.put.node, x.put.count)))
  {
    var x := s.subs[th.index];
    ReadDeq(c, s, t, th.To(DeqTail(head, count)));
    ReadDeq(c, s, t, th.To(DeqTailCount(head, count, x.put.node)));
  }

  /** The head moves on past a window that is not the tail. */
  lemma ShiftHead(c: Setup, s: State, t: nat, th: Thread, head: nat, count: nat)
    requires ReachedAt(c, s, t, th) && Named(s, th) && !s.crashed && th.pc == GetShift(head, count) && th.head == s.head
    requires s.head + 1 != s.tail && s.head + 2 < |s.wins| && s.wins[s.head + 2].width >= 1
    ensures ReachedAt(c, s.(head := s.head + 1), t,
                      th.SyncHead(s.head + 1, s.wins[s.head + 2].width).(hops := 0).To(GetRead))
  {
    ReadGet(c, s, t, th, 0);
    MoveHeadOn(c, s, t, th.To(HeadMove));
    ReadGet(c, s.(head := s.head + 1), t, th.To(HeadReload), 0);
  }

  lemma MoveHeadOn(c: Setup, s: State, t: nat, th: Thread)
    requires ReachedAt(c, s, t, th) && Named(s, th) && !s.crashed && th.pc.HeadMove? && th.head == s.head
    ensures ReachedAt(c, s.(head := s.head + 1), t, th.To(HeadReload))
  {
    var s1 := s.At(t, th);
    Onward(c, s1, t, Go(0, true));
    assert Step(s1, t, Go(0, true)).0 == s.(head := s.head + 1).At(t, th.To(HeadReload));
  }

}
