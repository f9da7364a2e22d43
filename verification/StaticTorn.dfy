/** A run of the static 2D queue on which a dequeue answers that there is nothing while an item is queued all
    along, in a sub-queue it never looked at.  It reads the count of a get descriptor, another dequeue
    takes the item, and then it reads the node: by the two halves there is something to take, and where
    it goes to take it there is nothing.  Two sub-queues, depth 1, three threads. */
module StaticTorn {
  import opened Descriptor
  import opened History
  import opened Schedule
  import opened Search
  import opened StaticQueueSteps
  import opened StaticAnswers

  /** A run to s on which sub-queue 1 held something ever since thread 0 began its dequeue, if it is in one. */
  ghost predicate Reaches(run: seq<State>, moves: seq<Move<Action>>, events: seq<Event>, s: State) {
    && IsRunOf(2, 1, 3, run, moves, events) && run[|moves|] == s && |s.threads| == 3
    && (!s.threads[0].pc.Idle? ==>
         forall k :: Since(moves, 0, |moves|) <= k <= |moves| ==> !EmptyAt(run[k], 1))
  }

  ghost predicate Reached(s: State) { exists run, moves, events :: Reaches(run, moves, events, s) }

  ghost predicate Fine(s: State) { |s.threads| == 3 && (s.threads[0].pc.Idle? || !EmptyAt(s, 1)) }

  lemma Onward(s: State, t: nat, act: Action)
    requires Reached(s) && Enabled(s, t, act) && Fine(Step(s, t, act).0)
    ensures Reached(Step(s, t, act).0)
  {
    var run, moves, events :| Reaches(run, moves, events, s);
    var (s1, e) := Step(s, t, act);
    ChainOn(run, moves, events, Makes, Move(t, act), s1, e);
    StepTold(s, t, act);
    SinceOn(moves, Move(t, act), |moves|);
    var run1, moves1, n := run + [s1], moves + [Move(t, act)], |moves| + 1;
    assert !s1.threads[0].pc.Idle? ==> forall k :: Since(moves1, 0, n) <= k <= n ==> !EmptyAt(run1[k], 1);
    assert Reaches(run1, moves1, events + [e], s1);
  }

  lemma {:induction false} SinceOn(moves: seq<Move<Action>>, m: Move<Action>, k: nat)
    requires k <= |moves|
    ensures Since(moves + [m], 0, k) == Since(moves, 0, k)
  {
    if k > 0 { SinceOn(moves, m, k - 1); }
  }

  /** Thread t is at th, all else as in s. */
  ghost predicate ReachedAt(s: State, t: nat, th: Thread) { t < |s.threads| && Reached(s.At(t, th)) }

  ghost predicate FineFor(s: State, t: nat) { if t == 0 then |s.threads| == 3 && !EmptyAt(s, 1) else Fine(s) }

  lemma Read(s: State, t: nat, th: Thread, r: nat, nodeFirst: bool)
    requires ReachedAt(s, t, th) && th.index < s.Width() && r < s.Width() && !Writing(th.pc) && !th.pc.Idle?
    requires FineFor(s, t)
    ensures ReachedAt(s, t, Look(s, th, r, nodeFirst))
  {
    var s1, act := s.At(t, th), Go(r, nodeFirst);
    SameLook(s, s1, th, r, nodeFirst);
    assert Step(s1, t, act).0 == s1.At(t, Look(s, th, r, nodeFirst));
    Onward(s1, t, act);
    assert s1.At(t, Look(s, th, r, nodeFirst)) == s.At(t, Look(s, th, r, nodeFirst));
  }

  lemma SameLook(s: State, s1: State, th: Thread, r: nat, nodeFirst: bool)
    requires s1.subs == s.subs && s1.putMax == s.putMax && s1.getMax == s.getMax && th.index < s.Width()
    ensures Look(s1, th, r, nodeFirst) == Look(s, th, r, nodeFirst)
  {
  }

  lemma Begin(s: State, t: nat, act: Action)
    requires Reached(s) && Enabled(s, t, act) && !act.Go? && FineFor(s, t)
    ensures var pc := if act.CallEnqueue? then PutEnter(act.v) else GetEnter;
            ReachedAt(s, t, s.threads[t].(contention := false).To(pc))
  {
    Onward(s, t, act);
  }

  // ---------------------------------------------------------------------------------------------
  // Two enqueues

  function Grown(x: Sub, v: int): Sub { x.(list := x.list + [v], put := Desc(x.put.node + 1, x.put.count + 1)) }

  lemma ReadPut(s: State, t: nat, th: Thread, v: int)
    requires ReachedAt(s, t, th) && th.pc == PutRead(v) && th.index < s.Width() && FineFor(s, t)
    ensures var x := s.subs[th.index].put; ReachedAt(s, t, th.To(PutCheck(v, x.node, x.count)))
  {
    var x := s.subs[th.index].put;
    Read(s, t, th, 0, true);
    Read(s, t, th.To(PutReadCount(v, x.node)), 0, true);
  }

  lemma LinkAndConfirm(s: State, t: nat, th: Thread, v: int)
    requires ReachedAt(s, t, th) && th.index < s.Width() && t != 0 && |s.threads| == 3 && s.threads[0].pc.Idle?
    requires var x := s.subs[th.index]; th.pc == EnqLink(v, x.put.node, x.put.count) && |x.list| == x.put.node + 1
    ensures ReachedAt(s.SetSub(th.index, Grown(s.subs[th.index], v)), t, th.To(Idle))
  {
    var i, x := th.index, s.subs[th.index];
    var s1 := s.At(t, th);
    Onward(s1, t, Go(0, true));
    var s2 := s.SetSub(i, x.(list := x.list + [v])).At(t, th.To(EnqConfirm(x.put.node, x.put.count)));
    assert Step(s1, t, Go(0, true)).0 == s2;
    Onward(s2, t, Go(0, true));
    assert Step(s2, t, Go(0, true)).0 == s.SetSub(i, Grown(x, v)).At(t, th.To(Idle));
  }

  lemma Fill(s: State, t: nat, th: Thread, v: int)
    requires ReachedAt(s, t, th) && th.pc == PutRead(v) && th.index < s.Width() && th.putMax == s.putMax
    requires t != 0 && |s.threads| == 3 && s.threads[0].pc.Idle?
    requires var x := s.subs[th.index]; x.put.count < s.putMax && |x.list| == x.put.node + 1
    ensures ReachedAt(s.SetSub(th.index, Grown(s.subs[th.index], v)), t, th.To(Idle))
  {
    var x := s.subs[th.index];
    ReadPut(s, t, th, v);
    Read(s, t, th.To(PutCheck(v, x.put.node, x.put.count)), 0, true);
    Read(s, t, th.To(EnqNext(v, x.put.node, x.put.count)), 0, true);
    Read(s, t, th.To(EnqRecheck(v, x.put.node, x.put.count)), 0, true);
    LinkAndConfirm(s, t, th.To(EnqLink(v, x.put.node, x.put.count)), v);
  }

  function At(a: Sub, b: Sub, u: Thread, v: Thread, w: Thread): State { State(1, 1, 1, [a, b], [u, v, w]) }

  const NONE := Sub([0], Desc(0, 0), Desc(0, 0))
  const NEW := Thread(0, 0, 0, 0, 0, false, false, Idle)

  /** Thread 1 enqueues value 5 in sub-queue 0, ... */
  lemma FirstItem()
    ensures Reached(At(Grown(NONE, 5), NONE, NEW, Thread(0, 1, 0, 0, 0, false, false, Idle), NEW))
  {
    var s := At(NONE, NONE, NEW, NEW, NEW);
    assert s == Init(2, 1, 3);
    assert Reaches([s], [], [], s);
    Begin(s, 1, CallEnqueue(5));
    Read(s, 1, NEW.To(PutEnter(5)), 0, true);
    Fill(s, 1, Thread(0, 1, 0, 0, 0, false, false, PutRead(5)), 5);
    assert s.SetSub(0, Grown(NONE, 5)).At(1, Thread(0, 1, 0, 0, 0, false, false, Idle)) ==
           At(Grown(NONE, 5), NONE, NEW, Thread(0, 1, 0, 0, 0, false, false, Idle), NEW);
  }

  /** ... and then 6 in sub-queue 1. */
  lemma SecondItem()
    ensures Reached(At(Grown(NONE, 5), Grown(NONE, 6), NEW, Thread(1, 1, 0, 0, 1, false, false, Idle), NEW))
  {
    FirstItem();
    var a := Grown(NONE, 5);
    var s := At(a, NONE, NEW, Thread(0, 1, 0, 0, 0, false, false, Idle), NEW);
    Begin(s, 1, CallEnqueue(6));
    Read(s, 1, Thread(0, 1, 0, 0, 0, false, false, PutEnter(6)), 0, true);
    ReadPut(s, 1, Thread(0, 1, 0, 0, 0, false, false, PutRead(6)), 6);
    Read(s, 1, Thread(0, 1, 0, 0, 0, false, false, PutCheck(6, 1, 1)), 1, true);
    var th := Thread(1, 1, 0, 0, 1, false, false, PutRead(6));
    Fill(s, 1, th, 6);
    assert s.SetSub(1, Grown(NONE, 6)).At(1, th.To(Idle)) == At(a, Grown(NONE, 6), NEW, th.To(Idle), NEW);
  }

  // ---------------------------------------------------------------------------------------------
  // Two dequeues

  const BACK := Thread(1, 1, 0, 0, 1, false, false, Idle)
  /** Thread 0 has read the count of the get descriptor of sub-queue 0, and not its node. */
  const HALF := Thread(0, 0, 1, 0, 0, false, false, GetReadNode(0))

  lemma HalfRead()
    ensures Reached(At(Grown(NONE, 5), Grown(NONE, 6), HALF, BACK, NEW))
  {
    SecondItem();
    var s := At(Grown(NONE, 5), Grown(NONE, 6), NEW, BACK, NEW);
    Begin(s, 0, CallDequeue);
    Read(s, 0, NEW.To(GetEnter), 0, false);
    Read(s, 0, Thread(0, 0, 1, 0, 0, false, false, GetRead), 0, false);
    assert s.At(0, HALF) == At(Grown(NONE, 5), Grown(NONE, 6), HALF, BACK, NEW);
  }

  /** Thread 2 takes value 5. */
  lemma ItemTaken()
    ensures Reached(At(Grown(NONE, 5).(get := Desc(1, 1)), Grown(NONE, 6), HALF, BACK,
                       Thread(0, 0, 1, 0, 0, false, false, Idle)))
  {
    HalfRead();
    var a, b := Grown(NONE, 5), Grown(NONE, 6);
    var s := At(a, b, HALF, BACK, NEW);
    var th := Thread(0, 0, 1, 0, 0, false, false, GetRead);
    Begin(s, 2, CallDequeue);
    Read(s, 2, NEW.To(GetEnter), 0, true);
    FindFirst(s, th);
    TakeFirst(s, th);
    var x := a.(get := Desc(1, 1));
    assert s.SetSub(0, x).At(2, th.To(Idle)) == At(x, b, HALF, BACK, th.To(Idle));
  }

  lemma FindFirst(s: State, th: Thread)
    requires ReachedAt(s, 2, th) && th == Thread(0, 0, 1, 0, 0, false, false, GetRead)
    requires s.Width() == 2 && s.getMax == 1 && s.subs[0] == Grown(NONE, 5) && |s.threads| == 3 && !EmptyAt(s, 1)
    ensures ReachedAt(s, 2, th.To(DeqTail(0, 0)))
  {
    Read(s, 2, th, 0, true);
    Read(s, 2, th.To(GetReadCount(0)), 0, true);
    Read(s, 2, th.To(GetReadPut(0, 0)), 0, true);
    Read(s, 2, th.To(GetCheck(0, 0, 1)), 0, true);
  }

  lemma TakeFirst(s: State, th: Thread)
    requires ReachedAt(s, 2, th.To(DeqTail(0, 0))) && th.index == 0 < s.Width() && |s.threads| == 3 && !EmptyAt(s, 1)
    requires s.subs[0] == Grown(NONE, 5)
    ensures ReachedAt(s.SetSub(0, s.subs[0].(get := Desc(1, 1))), 2, th.To(Idle))
  {
    Read(s, 2, th.To(DeqTail(0, 0)), 0, true);
    Read(s, 2, th.To(DeqTailCount(0, 0, 1)), 0, true);
    Read(s, 2, th.To(DeqNext(0, 0, 1, 1)), 0, true);
    SwingFirst(s, th);
  }

  lemma SwingFirst(s: State, th: Thread)
    requires ReachedAt(s, 2, th.To(DeqSwing(0, 0))) && th.index == 0 < s.Width() && |s.threads| == 3 && !EmptyAt(s, 1)
    requires s.subs[0].get == Desc(0, 0)
    ensures ReachedAt(s.SetSub(0, s.subs[0].(get := Desc(1, 1))), 2, th.To(Idle))
  {
    var s1 := s.At(2, th.To(DeqSwing(0, 0)));
    assert Step(s1, 2, Go(0, true)).0 == s.SetSub(0, s.subs[0].(get := Desc(1, 1))).At(2, th.To(Idle));
    Onward(s1, 2, Go(0, true));
  }

  /** Thread 0 goes on and answers that there is nothing.  Value 6 has been queued in sub-queue 1 since before
      its call, and it never looked there. */
  lemma EmptyWrongly() returns (run: seq<State>, moves: seq<Move<Action>>, events: seq<Event>, k: nat)
    ensures IsRunOf(2, 1, 3, run, moves, events) && |moves| == k + 1 && moves[k].t == 0 && events[k] == Empty(0)
    ensures run[k].Width() == 2 && run[k].subs[1].list == [0, 6] && run[k].subs[1].get.node == 0
    ensures !SeenEmpty(run, Since(moves, 0, k), k, 1)
  {
    ItemTaken();
    var s0 := At(Grown(NONE, 5).(get := Desc(1, 1)), Grown(NONE, 6), HALF, BACK,
                 Thread(0, 0, 1, 0, 0, false, false, Idle));
    assert s0.At(0, HALF) == s0;
    var th := Thread(0, 0, 1, 0, 0, false, false, GetRead);
    Read(s0, 0, HALF, 0, true);
    Read(s0, 0, th.To(GetReadPut(1, 0)), 0, true);
    Read(s0, 0, th.To(GetCheck(1, 0, 1)), 0, true);
    Read(s0, 0, th.To(DeqTail(1, 0)), 0, true);
    Read(s0, 0, th.To(DeqTailCount(1, 0, 1)), 0, true);
    run, moves, events, k := LastStep(s0.At(0, th.To(DeqNext(1, 0, 1, 1))));
  }

  lemma LastStep(s: State) returns (run: seq<State>, moves: seq<Move<Action>>, events: seq<Event>, k: nat)
    requires Reached(s) && |s.threads| == 3 && s.threads[0].pc == DeqNext(1, 0, 1, 1) && s.threads[0].index == 0
    requires s.Width() == 2 && |s.subs[0].list| == 2
    ensures IsRunOf(2, 1, 3, run, moves, events) && |moves| == k + 1 && moves[k].t == 0 && events[k] == Empty(0)
    ensures run[k] == s && !SeenEmpty(run, Since(moves, 0, k), k, 1)
  {
    var run0, moves0, events0 :| Reaches(run0, moves0, events0, s);
    k := |moves0|;
    var m := Move(0, Go(0, true));
    var (s1, e) := Step(s, 0, Go(0, true));
    ChainOn(run0, moves0, events0, Makes, m, s1, e);
    run, moves, events := run0 + [s1], moves0 + [m], events0 + [e];
    SinceOn(moves0, m, k);
  }
}
