/** What widths make the elastic LaW queue go wrong, for every list of windows: a sub-queue that takes part
    in one window and in a later one, but not in one between them, can be made to lose count, and once
    another window is begun a dequeuer can follow a NULL pointer.  With any other widths each sub-queue
    is FIFO (LawFifo).

    The run: thread 1 fills and drains window after window, one item at a time.  Thread 0 finds nothing in
    the first of the three windows and waits before it looks at the tail; in the last of them it goes
    on, and takes an item by the get count and the window it remembers. */
module LawReturn {
  import opened Descriptor
  import opened History
  import opened Search
  import opened LateralWindows
  import opened LawSteps
  import opened LawFifo
  import opened LawScript
  import opened Schedule

  /** A list of windows the queue can come to have, the dummy in front. */
  ghost predicate IsLateral(maxWidth: Width, ws: seq<Win>) {
    Lateral(ws, maxWidth) && ws[0] == Win(0, ws[1].width, 0)
  }

  function SetupOf(maxWidth: Width, n: nat, ws: seq<Win>): Setup requires |ws| >= 2 {
    Setup(maxWidth, ws[1].width, ws[1].depth, n)
  }

  /** All that was linked was confirmed and taken. */
  ghost predicate Even(x: Sub) {
    x.get.node == x.put.node && |x.list| == x.put.node + 1 && x.get.count <= x.put.count
  }

  ghost predicate Level(x: Sub) { x.get.count == x.put.count }

  /** The get count has fallen behind the row of the item taken last, in window w. */
  ghost predicate Behind(w: Win, x: Sub) { x.get.count < x.put.count && Bottom(w) < x.put.count }

  /** Window k is the tail and the get window, nothing is left in any sub-queue, and thread 1 rests; thread 0
      is at p. */
  ghost predicate Calm(c: Setup, ws: seq<Win>, k: nat, p: Thread, s: State) {
    && Reached(c, s) && !s.crashed && 1 <= k < |ws| && s.wins == ws[..k + 1] && s.tail == k && s.head == k - 1
    && |s.subs| == s.maxWidth == c.maxWidth && |s.threads| == c.n >= 2 && s.threads[0] == p
    && s.threads[1].pc.Idle? && s.threads[1].head == k - 1 && Named(s, s.threads[1])
    && forall i {:trigger s.subs[i]} :: 0 <= i < |s.subs| ==> Even(s.subs[i]) && s.subs[i].put.count <= ws[k].max
  }

  ghost predicate AllLevel(s: State) { forall i :: 0 <= i < |s.subs| ==> Level(s.subs[i]) }

  // ---------------------------------------------------------------------------------------------
  // Filling and draining a window

  /** Thread 1 enqueues an item at index i and takes it. */
  lemma InAndOut(c: Setup, ws: seq<Win>, k: nat, p: Thread, s: State, i: nat) returns (s1: State)
    requires IsLateral(c.maxWidth, ws) && Calm(c, ws, k, p, s) && i < ws[k].width && s.subs[i].put.count < ws[k].max
    ensures Calm(c, ws, k, p, s1) && s1.subs == s.subs[i := s1.subs[i]]
    ensures s1.subs[i].put.count == NextRow(ws[k], s.subs[i].put.count)
    ensures s1.subs[i].get.count == NextRow(ws[k], s.subs[i].get.count)
  {
    var x := s.subs[i];
    Enqueue(c, s, 1, 0, i);
    var s0 := s.SetSub(i, Grown(s, i, 0)).At(1, Thread(i, k, k - 1, 0, 0, false, Idle));
    StartDequeue(c, s0, 1, i);
    var th := Thread(i, k, k - 1, 0, 0, false, GetRead);
    TakeIt(c, s0, 1, th);
    s1 := GetAt(s0, 1, th, x.get.node, x.get.count);
  }

  /** What filling window w does to a sub-queue. */
  ghost predicate FilledFrom(w: Win, i: nat, x: Sub, y: Sub) {
    && (i >= w.width ==> y == x) && (i < w.width ==> y.put.count == w.max)
    && (Level(x) ==> Level(y)) && (Behind(w, x) ==> Behind(w, y))
  }

  lemma {:induction false} FillSub(c: Setup, ws: seq<Win>, k: nat, p: Thread, s: State, i: nat) returns (s1: State)
    requires IsLateral(c.maxWidth, ws) && Calm(c, ws, k, p, s) && i < ws[k].width
    ensures Calm(c, ws, k, p, s1) && s1.subs == s.subs[i := s1.subs[i]]
    ensures FilledFrom(ws[k], i, s.subs[i], s1.subs[i])
    decreases ws[k].max - s.subs[i].put.count
  {
    if s.subs[i].put.count < ws[k].max {
      s1 := InAndOut(c, ws, k, p, s, i);
      s1 := FillSub(c, ws, k, p, s1, i);
    } else {
      s1 := s;
    }
  }

  ghost predicate AllFilled(w: Win, s: State, s1: State) {
    |s1.subs| == |s.subs| && forall i :: 0 <= i < |s.subs| ==> FilledFrom(w, i, s.subs[i], s1.subs[i])
  }

  lemma {:induction false} FillUp(c: Setup, ws: seq<Win>, k: nat, p: Thread, s: State, n: nat) returns (s1: State)
    requires IsLateral(c.maxWidth, ws) && Calm(c, ws, k, p, s) && n <= ws[k].width
    ensures Calm(c, ws, k, p, s1)
    ensures forall i :: 0 <= i < n ==> FilledFrom(ws[k], i, s.subs[i], s1.subs[i])
    ensures forall i :: n <= i < |s.subs| ==> s1.subs[i] == s.subs[i]
    decreases n
  {
    s1 := s;
    if n > 0 {
      s1 := FillUp(c, ws, k, p, s, n - 1);
      var s2 := FillSub(c, ws, k, p, s1, n - 1);
      assert forall i :: 0 <= i < n - 1 ==> s2.subs[i] == s1.subs[i];
      s1 := s2;
    }
  }

  lemma FillWindow(c: Setup, ws: seq<Win>, k: nat, p: Thread, s: State) returns (s1: State)
    requires IsLateral(c.maxWidth, ws) && Calm(c, ws, k, p, s)
    ensures Calm(c, ws, k, p, s1) && AllFilled(ws[k], s, s1)
  {
    s1 := FillUp(c, ws, k, p, s, ws[k].width);
  }

  // ---------------------------------------------------------------------------------------------
  // On to the next window

  ghost predicate PutFull(w: Win, s: State) {
    forall i :: 0 <= i < |s.subs| && i < w.width ==> s.subs[i].put.count == w.max
  }

  function Setting(s: State, w: Win): State { s.(width := w.width, depth := w.depth) }

  /** Where a begun window k + 1 leaves the queue: thread 1 has enqueued its first item. */
  function Begun(ws: seq<Win>, k: nat, s: State): State
    requires k + 1 < |ws| && s.wins == ws[..k + 1] && s.tail == k && |s.subs| >= 1 && |s.threads| >= 2
  {
    var s1 := Shifted(Setting(s, ws[k + 1]));
    s1.SetSub(0, Grown(s1, 0, 0)).At(1, Thread(0, k + 1, s.threads[1].head, 0, RANDOM_HOPS, false, Idle))
  }

  lemma BeginWindow(c: Setup, ws: seq<Win>, k: nat, p: Thread, s: State)
    requires IsLateral(c.maxWidth, ws) && Calm(c, ws, k, p, s) && PutFull(ws[k], s) && k + 1 < |ws|
    ensures var s1 := Begun(ws, k, s);
            && Reached(c, s1) && s1.wins == ws[..k + 2]
            && s1.subs[0].put == Desc(s.subs[0].put.node + 1, ws[k].max + 1) && s1.subs[0].get == s.subs[0].get
            && |s1.subs[0].list| == |s.subs[0].list| + 1
  {
    var w := ws[k + 1];
    assert Adjacent(ws[k], ws[k + 1]);
    Onward(c, s, 1, UpdateWidth(w.width));
    Onward(c, s.(width := w.width), 1, UpdateDepth(w.depth));
    EnqueueShifting(c, Setting(s, w), 1, 0);
    assert ws[..k + 1] + [w] == ws[..k + 2];
  }

  /** Thread 1 begins the next window, moves the get window there, and takes the item. */
  lemma NextWindow(c: Setup, ws: seq<Win>, k: nat, p: Thread, s: State) returns (s1: State)
    requires IsLateral(c.maxWidth, ws) && Calm(c, ws, k, p, s) && PutFull(ws[k], s) && AllLevel(s) && k + 1 < |ws|
    ensures Calm(c, ws, k + 1, p, s1) && AllLevel(s1)
    ensures |s1.subs| == |s.subs| && forall i :: 0 < i < |s.subs| ==> s1.subs[i] == s.subs[i]
  {
    BeginWindow(c, ws, k, p, s);
    var s0 := Begun(ws, k, s);
    assert Adjacent(ws[k], ws[k + 1]);
    StartDequeue(c, s0, 1, 0);
    PassDrainedWindow(c, s0, 1, Thread(0, k + 1, k - 1, 0, 0, false, GetRead), 0);
    var x := s0.subs[0];
    ShiftHead(c, s0, 1, Thread(0, k + 1, k - 1, ws[k].width, RANDOM_HOPS, false, GetShift(x.get.node, x.get.count)),
              x.get.node, x.get.count);
    var s2 := s0.(head := k);
    var th := Thread(0, k + 1, k, 0, RANDOM_HOPS, false, GetRead);
    TakeIt(c, s2, 1, th);
    s1 := GetAt(s2, 1, th, x.get.node, x.get.count);
  }

  /** And so on, up to a full and drained window l. */
  lemma {:induction false} AdvanceTo(c: Setup, ws: seq<Win>, k: nat, l: nat, p: Thread, s: State, i: nat)
    returns (s1: State)
    requires IsLateral(c.maxWidth, ws) && Calm(c, ws, k, p, s) && AllLevel(s) && k <= l < |ws| && 0 < i < |s.subs|
    ensures Calm(c, ws, l, p, s1) && AllLevel(s1) && PutFull(ws[l], s1)
    ensures (forall j :: k <= j <= l ==> ws[j].width <= i) ==> s1.subs[i] == s.subs[i]
    decreases l - k
  {
    s1 := FillWindow(c, ws, k, p, s);
    forall j | 0 <= j < |s.subs| ensures Level(s1.subs[j]) && (j < ws[k].width ==> s1.subs[j].put.count == ws[k].max) {
      assert FilledFrom(ws[k], j, s.subs[j], s1.subs[j]) && Level(s.subs[j]);
    }
    if k < l {
      var s2 := NextWindow(c, ws, k, p, s1);
      s1 := AdvanceTo(c, ws, k + 1, l, p, s2, i);
    }
  }

  const FRESH := Thread(0, 1, 0, 0, 0, false, Idle)

  lemma StartCalm(maxWidth: Width, n: nat, ws: seq<Win>)
    requires IsLateral(maxWidth, ws) && n >= 2
    ensures var s := Init(maxWidth, ws[1].width, ws[1].depth, n);
            Calm(SetupOf(maxWidth, n, ws), ws, 1, FRESH, s) && AllLevel(s)
  {
    var c, s := SetupOf(maxWidth, n, ws), Init(maxWidth, ws[1].width, ws[1].depth, n);
    assert Reaches(c, [s], [], [], s);
    assert Adjacent(ws[0], ws[1]);
    assert s.wins == ws[..2];
  }

  // ---------------------------------------------------------------------------------------------
  // Straying

  /** Where thread 0 waits: it found nothing in window a and is about to look at the tail of sub-queue i. */
  function Waiter(ws: seq<Win>, a: nat, i: nat, node: nat): Thread requires 1 <= a < |ws| {
    Thread(i, a, a - 1, ws[a].width, RANDOM_HOPS, false, DeqTail(node, ws[a].max))
  }

  lemma Wait(c: Setup, ws: seq<Win>, a: nat, s: State, i: nat) returns (s1: State)
    requires IsLateral(c.maxWidth, ws) && Calm(c, ws, a, FRESH, s) && AllLevel(s) && PutFull(ws[a], s)
    requires i < ws[a].width
    ensures Calm(c, ws, a, Waiter(ws, a, i, s.subs[i].get.node), s1) && s1.subs == s.subs
  {
    StartDequeue(c, s, 0, 0);
    PassDrainedWindow(c, s, 0, Thread(0, a, a - 1, 0, 0, false, GetRead), i);
    var x := s.subs[i];
    ReadGet(c, s, 0, Thread(i, a, a - 1, ws[a].width, RANDOM_HOPS, false, GetShift(x.get.node, x.get.count)), 0);
    s1 := s.At(0, Waiter(ws, a, i, x.get.node));
  }

  /** In window e thread 1 enqueues at index i, and thread 0 takes the item by what it remembers of
      window a: the get count falls behind. */
  lemma Stray(c: Setup, ws: seq<Win>, a: nat, e: nat, s: State, i: nat) returns (p: Thread, s1: State)
    requires IsLateral(c.maxWidth, ws) && 1 <= a < e < |ws| && i < ws[e].width && ws[a].max < Bottom(ws[e])
    requires i < |s.subs| && Calm(c, ws, e, Waiter(ws, a, i, s.subs[i].get.node), s)
    requires s.subs[i].get.count == s.subs[i].put.count == ws[a].max
    ensures Calm(c, ws, e, p, s1) && s1.subs == s.subs[i := s1.subs[i]] && Behind(ws[e], s1.subs[i])
  {
    var x := s.subs[i];
    Enqueue(c, s, 1, 0, i);
    var s0 := s.SetSub(i, Grown(s, i, 0)).At(1, Thread(i, e, e - 1, 0, 0, false, Idle));
    var th := Waiter(ws, a, i, x.get.node);
    assert s0.At(0, th.To(DeqTail(x.get.node, ws[a].max))) == s0;
    ReadTail(c, s0, 0, th, x.get.node, ws[a].max);
    Swing(c, s0, 0, th.To(DeqSwing(x.get.node, ws[a].max, true)), x.get.node, ws[a].max);
    s1 := GetAt(s0, 0, th, x.get.node, ws[a].max);
    p := th.To(Idle);
  }

  /** Once the next window is begun, a dequeuer at the sub-queue that lost count trusts the count. */
  lemma FollowNull(c: Setup, ws: seq<Win>, e: nat, p: Thread, s: State, i: nat) returns (s1: State)
    requires IsLateral(c.maxWidth, ws) && Calm(c, ws, e, p, s) && PutFull(ws[e], s) && e + 1 < |ws|
    requires 0 < i < |s.subs| && i < ws[e].width && Behind(ws[e], s.subs[i])
    ensures Reached(c, s1) && s1.crashed && s1.wins == ws[..e + 2]
  {
    BeginWindow(c, ws, e, p, s);
    assert Adjacent(ws[e], ws[e + 1]);
    var s0, x := Begun(ws, e, s), s.subs[i];
    StartDequeue(c, s0, 1, i);
    var th := Thread(i, e + 1, e - 1, 0, 0, false, GetRead);
    Turn(c, s0, 1, th, 0);
    s1 := SwingToNull(c, s0, 1, th, x.get.node, x.get.count);
  }

  lemma SwingToNull(c: Setup, s: State, t: nat, th: Thread, head: nat, count: nat) returns (s1: State)
    requires ReachedAt(c, s, t, th.To(DeqSafe(head, count))) && Named(s, th) && !s.crashed
    requires s.subs[th.index].get == Desc(head, count) && head + 1 == |s.subs[th.index].list|
    ensures Reached(c, s1) && s1.crashed && s1.wins == s.wins
  {
    ReadDeq(c, s, t, th.To(DeqSafe(head, count)));
    var s0 := s.At(t, th.To(DeqSwing(head, count, false)));
    Onward(c, s0, t, Go(0, true));
    s1 := Step(s0, t, Go(0, true)).0;
  }

  // ---------------------------------------------------------------------------------------------
  // Exactly which widths

  /** The return of some sub-queue i, with no window between that it takes part in. */
  lemma {:induction false} Tightest(ws: seq<Win>, a: nat, b: nat, e: nat) returns (a1: nat, e1: nat)
    requires 0 < a < b < e < |ws| && ws[b].width < ws[a].width && ws[b].width < ws[e].width
    ensures a <= a1 < b < e1 <= e && ws[b].width < ws[a1].width && ws[b].width < ws[e1].width
    ensures forall j :: a1 < j < e1 ==> ws[j].width <= ws[b].width
    decreases e - a
  {
    a1, e1 := a, e;
    if j :| a < j < e && ws[b].width < ws[j].width {
      if j < b { a1, e1 := Tightest(ws, j, b, e); } else { a1, e1 := Tightest(ws, a, b, j); }
    }
  }

  /** With a return before the last window, some run of any two or more threads follows a NULL. */
  lemma NullFollowed(maxWidth: Width, n: nat, ws: seq<Win>) returns (s: State)
    requires IsLateral(maxWidth, ws) && n >= 2 && !NoReturn(Before(ws))
    ensures Reached(SetupOf(maxWidth, n, ws), s) && s.crashed && s.wins <= ws
  {
    var a0: nat, b: nat, e0: nat :| Returns(Before(ws), a0, b, e0);
    var a, e := Tightest(ws, a0, b, e0);
    var c, i := SetupOf(maxWidth, n, ws), ws[b].width;
    StartCalm(maxWidth, n, ws);
    s := AdvanceTo(c, ws, 1, a, FRESH, Init(maxWidth, ws[1].width, ws[1].depth, n), i);
    s := Wait(c, ws, a, s, i);
    s := ReturnTo(c, ws, a, e, s, i);
    assert Above(ws, a, b) && Above(ws, b, e);
    var p;
    p, s := Stray(c, ws, a, e, s, i);
    s := FillAgain(c, ws, e, p, s, i);
    s := FollowNull(c, ws, e, p, s, i);
  }

  lemma ReturnTo(c: Setup, ws: seq<Win>, a: nat, e: nat, s: State, i: nat) returns (s1: State)
    requires IsLateral(c.maxWidth, ws) && 1 <= a && a + 1 < e < |ws| && 0 < i < |s.subs|
    requires Calm(c, ws, a, Waiter(ws, a, i, s.subs[i].get.node), s) && AllLevel(s) && PutFull(ws[a], s)
    requires forall j :: a < j < e ==> ws[j].width <= i
    ensures i < |s1.subs| && s1.subs[i] == s.subs[i]
    ensures Calm(c, ws, e, Waiter(ws, a, i, s.subs[i].get.node), s1)
  {
    var p := Waiter(ws, a, i, s.subs[i].get.node);
    s1 := NextWindow(c, ws, a, p, s);
    s1 := AdvanceTo(c, ws, a + 1, e - 1, p, s1, i);
    s1 := NextWindow(c, ws, e - 1, p, s1);
  }

  lemma FillAgain(c: Setup, ws: seq<Win>, e: nat, p: Thread, s: State, i: nat) returns (s1: State)
    requires IsLateral(c.maxWidth, ws) && Calm(c, ws, e, p, s) && i < |s.subs| && Behind(ws[e], s.subs[i])
    ensures Calm(c, ws, e, p, s1) && PutFull(ws[e], s1) && i < |s1.subs| && Behind(ws[e], s1.subs[i])
  {
    s1 := FillWindow(c, ws, e, p, s);
    forall j | 0 <= j < |s1.subs| && j < ws[e].width ensures s1.subs[j].put.count == ws[e].max {
      assert FilledFrom(ws[e], j, s.subs[j], s1.subs[j]);
    }
    assert FilledFrom(ws[e], i, s.subs[i], s1.subs[i]);
  }

  /** All runs of n threads that make no other windows than these are in order. */
  ghost predicate Safe(maxWidth: Width, n: nat, ws: seq<Win>) requires |ws| >= 2 {
    forall run: seq<State>, moves: seq<Move<Action>>, events: seq<Event> ::
      IsRunOf(maxWidth, ws[1].width, ws[1].depth, n, run, moves, events) && run[|moves|].wins <= ws ==>
      InOrder(run[|moves|], events)
  }

  /** Exactly which widths are safe, for any two or more threads and any list of windows: those where no
      sub-queue that dropped out returned before the last of them. */
  lemma FifoExactly(maxWidth: Width, n: nat, ws: seq<Win>)
    requires IsLateral(maxWidth, ws) && n >= 2
    ensures Safe(maxWidth, n, ws) <==> NoReturn(Before(ws))
  {
    if NoReturn(Before(ws)) {
      forall run: seq<State>, moves: seq<Move<Action>>, events: seq<Event> |
        IsRunOf(maxWidth, ws[1].width, ws[1].depth, n, run, moves, events) && run[|moves|].wins <= ws
        ensures InOrder(run[|moves|], events)
      {
        EarlierNoReturn(Before(run[|moves|].wins), Before(ws));
        SubQueuesFifo(maxWidth, ws[1].width, ws[1].depth, n, run, moves, events);
      }
    } else {
      var s := NullFollowed(maxWidth, n, ws);
      var run, moves, events :| Reaches(SetupOf(maxWidth, n, ws), run, moves, events, s);
      assert !InOrder(run[|moves|], events);
    }
  }
}
