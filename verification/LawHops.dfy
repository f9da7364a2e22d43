/** The hop counter of get_window in the elastic LaW queue.  When the get window is found to be another, the
    search goes on with the hops it has counted, and it shifts or gives up only when these are exactly
    as many as the new window is wide.  So in a narrower window it may hop until the 16-bit counter has
    gone round, and in a wider one it may give up while there is something to take. */
module LawHops {
  import opened Descriptor
  import opened History
  import opened Search
  import opened LateralWindows
  import opened LawSteps
  import opened LawFifo
  import opened LawScript
  import opened LawReturn
  import opened Schedule

  /** Thread t is in a search of the current get window, and all that it has read is still so. */
  ghost predicate Searches(s: State, t: nat) {
    && t < |s.threads| && Inv(s) && !s.crashed
    && var th := s.threads[t];
    && Named(s, th) && th.head == s.head && th.index < s.wins[th.head + 1].width <= |s.subs|
    && th.hops < COUNTER && th.random <= RANDOM_HOPS && (th.hops > 0 ==> th.random == RANDOM_HOPS)
    && ReadsSo(s, th)
  }

  predicate ReadsSo(s: State, th: Thread) requires Named(s, th) {
    var x := s.subs[th.index];
    match th.pc
    case GetRead => true
    case GetReadNode(count) => count == x.get.count
    case GetReadCount(_) => true
    case GetReadPut(_, count) => count == x.get.count
    case GetCheck(_, count, put) => count == x.get.count && put == Seen(s, th.win, th.head, th.index)
    case _ => false
  }

  ghost predicate SomethingIn(s: State, win: nat, head: nat) requires win < |s.wins| && head + 1 < |s.wins| {
    exists j :: 0 <= j < |s.subs| && j < s.wins[head + 1].width && Takeable(s, win, head, j)
  }

  /** Only thread t moves. */
  ghost predicate Alone(run: seq<State>, t: nat, acts: seq<Action>) {
    && |run| == |acts| + 1
    && forall k :: 0 <= k < |acts| ==> MovesAlone(run[k], t, acts[k], run[k + 1])
  }

  ghost predicate MovesAlone(s: State, t: nat, act: Action, s1: State) {
    act.Go? && Enabled(s, t, act) && Step(s, t, act).0 == s1
  }

  // ---------------------------------------------------------------------------------------------
  // When a search ends

  ghost predicate SameShared(s: State, s1: State) {
    s1.subs == s.subs && s1.wins == s.wins && s1.head == s.head && s1.tail == s.tail
  }

  lemma ReadTurns(s: State, th: Thread, r: nat, nodeFirst: bool)
    requires Named(s, th) && ReadsSo(s, th) && !th.pc.GetCheck?
    ensures var th1 := Look(s, th, r, nodeFirst);
            th1 == th.To(th1.pc) && Reads(th1.pc) + 1 == Reads(th.pc) && Named(s, th1) && ReadsSo(s, th1)
  {
  }

  /** What one access of a search comes to: the thread reads on, ... */
  lemma SearchReads(s: State, t: nat, act: Action, s1: State)
    requires Searches(s, t) && MovesAlone(s, t, act, s1) && !s.threads[t].pc.GetCheck?
    ensures |s1.threads| == |s.threads| && SameShared(s, s1) && Searches(s1, t)
    ensures var th, th1 := s.threads[t], s1.threads[t]; th1 == th.To(th1.pc) && Reads(th1.pc) + 1 == Reads(th.pc)
  {
    ReadOnly(s, t, act);
    ReadTurns(s, s.threads[t], act.r, act.nodeFirst);
    StepKeeps(s, t, act);
  }

  /** ... or hops, or leaves the search. */
  lemma SearchDecides(s: State, t: nat, act: Action, s1: State)
    requires Searches(s, t) && MovesAlone(s, t, act, s1) && s.threads[t].pc.GetCheck?
    ensures |s1.threads| == |s.threads| && SameShared(s, s1)
    ensures var th, th1 := s.threads[t], s1.threads[t];
            var w := s.wins[th.head + 1].width;
            if Takeable(s, th.win, th.head, th.index) || th.hops == w then !Searches(s1, t)
            else Searches(s1, t) && th1 == th.Hop(w, act.r).To(GetRead)
  {
    ReadOnly(s, t, act);
    StepKeeps(s, t, act);
  }

  /** Accesses left in one turn. */
  function Reads(pc: Pc): nat {
    if pc.GetRead? then 4 else if pc.GetReadNode? || pc.GetReadCount? then 3 else if pc.GetReadPut? then 2 else 1
  }

  lemma SameSomething(s: State, s1: State, win: nat, head: nat)
    requires SameShared(s, s1) && win < |s.wins| && head + 1 < |s.wins|
    ensures SomethingIn(s1, win, head) <==> SomethingIn(s, win, head)
  {
    forall j | 0 <= j < |s.subs| ensures Takeable(s1, win, head, j) <==> Takeable(s, win, head, j) {}
  }

  /** Hops in order until the counter is as much as the window is wide: first it may have to go round. */
  function HopsLeft(w: nat, hops: nat): nat {
    if hops <= w then w - hops else if hops <= COUNTER then COUNTER - hops + w else w
  }

  /** The accesses still to be made in a search that finds nothing. */
  function ToGo(s: State, t: nat): nat {
    if t >= |s.threads| || s.threads[t].head + 1 >= |s.wins| then 1
    else
      var th := s.threads[t];
      4 * TurnsLeft(th, s.wins[th.head + 1].width) + Reads(th.pc)
  }

  /** Each access of a search brings its end nearer by one, unless it ends at once; with nothing to take it
      ends only when it is due. */
  lemma SearchStep(s: State, t: nat, act: Action, s1: State)
    requires Searches(s, t) && MovesAlone(s, t, act, s1)
    ensures SameShared(s, s1) && ToGo(s, t) >= 1
    ensures Searches(s1, t) ==> ToGo(s1, t) == ToGo(s, t) - 1 && SameWindow(s, s1, t)
    ensures !SomethingIn(s, s.threads[t].win, s.threads[t].head) ==> (Searches(s1, t) <==> ToGo(s, t) > 1)
  {
    var th := s.threads[t];
    if th.pc.GetCheck? {
      SearchDecides(s, t, act, s1);
      HopNearer(th, s.wins[th.head + 1].width, act.r);
    } else {
      SearchReads(s, t, act, s1);
    }
  }

  function TurnsLeft(th: Thread, w: nat): nat {
    (if th.random <= RANDOM_HOPS then RANDOM_HOPS - th.random else 0) + HopsLeft(w, th.hops)
  }

  lemma HopNearer(th: Thread, w: nat, r: nat)
    requires 1 <= w < COUNTER && th.hops < COUNTER && th.random <= RANDOM_HOPS
    requires th.hops > 0 ==> th.random == RANDOM_HOPS
    ensures th.hops == w ==> TurnsLeft(th, w) == 0
    ensures th.hops != w ==> TurnsLeft(th.Hop(w, r), w) + 1 == TurnsLeft(th, w)
  {
  }

  ghost predicate SameWindow(s: State, s1: State, t: nat) {
    && t < |s.threads| == |s1.threads|
    && s1.threads[t].win == s.threads[t].win && s1.threads[t].head == s.threads[t].head
  }

  lemma SearchGoesOn(s0: State, s: State, t: nat, act: Action, s1: State, k: nat)
    requires Searches(s, t) && MovesAlone(s, t, act, s1) && SameShared(s0, s) && SameWindow(s0, s, t) && k >= 1
    requires ToGo(s, t) + k - 1 == ToGo(s0, t) && s0.threads[t].win < |s0.wins| && s0.threads[t].head + 1 < |s0.wins|
    ensures SameShared(s0, s1) && k <= ToGo(s0, t)
    ensures Searches(s1, t) ==> ToGo(s1, t) + k == ToGo(s0, t) && SameWindow(s0, s1, t)
    ensures !SomethingIn(s0, s0.threads[t].win, s0.threads[t].head) ==> (Searches(s1, t) <==> k < ToGo(s0, t))
  {
    SearchStep(s, t, act, s1);
    SameSomething(s0, s, s0.threads[t].win, s0.threads[t].head);
  }

  lemma {:induction false} SearchRun(run: seq<State>, t: nat, acts: seq<Action>, k: nat)
    requires Alone(run, t, acts) && Searches(run[0], t) && k <= |acts|
    requires forall i :: 0 <= i < k ==> Searches(run[i], t)
    ensures SameShared(run[0], run[k]) && k <= ToGo(run[0], t)
    ensures Searches(run[k], t) ==> ToGo(run[k], t) + k == ToGo(run[0], t) && SameWindow(run[0], run[k], t)
    ensures !SomethingIn(run[0], run[0].threads[t].win, run[0].threads[t].head) ==>
            (Searches(run[k], t) <==> k < ToGo(run[0], t))
  {
    if k > 0 {
      SearchRun(run, t, acts, k - 1);
      assert MovesAlone(run[k - 1], t, acts[k - 1], run[k]);
      SearchGoesOn(run[0], run[k - 1], t, acts[k - 1], run[k], k);
    }
  }

  ghost predicate StoppedAt(run: seq<State>, t: nat, k: nat) { k < |run| && !Searches(run[k], t) }

  lemma {:induction false} SearchLasts(run: seq<State>, t: nat, acts: seq<Action>, k: nat)
    requires Alone(run, t, acts) && Searches(run[0], t) && k <= |acts| && k < ToGo(run[0], t)
    requires !SomethingIn(run[0], run[0].threads[t].win, run[0].threads[t].head)
    ensures forall i :: 0 <= i <= k ==> Searches(run[i], t)
  {
    if k > 0 {
      SearchLasts(run, t, acts, k - 1);
      SearchRun(run, t, acts, k);
    }
  }

  /** Left alone, a search of a window ends, at the latest when the counter is as much as the window is wide;
      and with nothing to take no access earlier. */
  lemma SearchEnds(run: seq<State>, t: nat, acts: seq<Action>, due: nat)
    requires Alone(run, t, acts) && Searches(run[0], t) && due == ToGo(run[0], t) <= |acts|
    ensures exists k: nat :: k <= due && StoppedAt(run, t, k)
    ensures !SomethingIn(run[0], run[0].threads[t].win, run[0].threads[t].head) ==>
            StoppedAt(run, t, due) && forall i :: 0 <= i < due ==> Searches(run[i], t)
  {
    if forall k: nat :: k <= due ==> !StoppedAt(run, t, k) {
      forall i | 0 <= i <= due ensures Searches(run[i], t) { assert !StoppedAt(run, t, i); }
      SearchRun(run, t, acts, due);
    }
    if !SomethingIn(run[0], run[0].threads[t].win, run[0].threads[t].head) {
      SearchStep(run[0], t, acts[0], run[1]) by { assert MovesAlone(run[0], t, acts[0], run[1]); }
      SearchLasts(run, t, acts, due - 1);
      SearchRun(run, t, acts, due);
    }
  }

  // ---------------------------------------------------------------------------------------------
  // Runs on which the counter goes wrong

  lemma ReachedInv(c: Setup, s: State)
    requires Reached(c, s) && 1 <= c.width <= c.maxWidth && c.depth >= 1
    ensures Inv(s)
  {
    var run: seq<State>, moves: seq<Move<Action>>, events: seq<Event> :| Reaches(c, run, moves, events, s);
    forall i | 0 <= i < |run| - 1 ensures Next(run[i], run[i + 1]) {
      assert Makes(run[i], moves[i], run[i + 1], events[i]);
      var m := moves[i];
      assert Enabled(run[i], m.t, m.act);
    }
    Reachable(c.maxWidth, c.width, c.depth, c.n, run);
  }

  /** A search that finds nothing has counted h hops. */
  lemma {:induction false} HopTo(c: Setup, s: State, t: nat, th: Thread, i: nat, h: nat) returns (th1: Thread)
    requires PassingDrained(c, s, t, th, i) && th.hops <= h <= s.wins[th.head + 1].width && h >= 1
    ensures PassingDrained(c, s, t, th1, i) && th1.hops == h && th1.win == th.win && th1.head == th.head
    decreases RANDOM_HOPS - th.random + h - th.hops
  {
    th1 := th;
    if th.hops < h {
      PassOne(c, s, t, th, i);
      HopFrom(th, s.wins[th.head + 1].width, i);
      th1 := HopTo(c, s, t, th.Hop(s.wins[th.head + 1].width, i).To(GetRead), i, h);
    }
  }

  /** Where thread 0 waits: in the middle of a search of window a, h hops counted. */
  ghost predicate Lingers(ws: seq<Win>, a: nat, h: nat, th: Thread) requires 1 <= a < |ws| {
    th.pc.GetRead? && th.win == a && th.head == a - 1 && th.hops == h && PassFrom(th, ws[a].width, 0)
  }

  lemma Linger(c: Setup, ws: seq<Win>, a: nat, s: State, h: nat) returns (th: Thread, s1: State)
    requires IsLateral(c.maxWidth, ws) && Calm(c, ws, a, FRESH, s) && AllLevel(s) && PutFull(ws[a], s)
    requires 1 <= h <= ws[a].width
    ensures Calm(c, ws, a, th, s1) && s1.subs == s.subs && Lingers(ws, a, h, th)
  {
    StartDequeue(c, s, 0, 0);
    th := HopTo(c, s, 0, Thread(0, a, a - 1, 0, 0, false, GetRead), 0, h);
    s1 := s.At(0, th);
  }

  /** Meanwhile thread 1 comes to window b. */
  lemma LingerUntil(maxWidth: Width, n: nat, ws: seq<Win>, a: nat, b: nat, h: nat) returns (th: Thread, s: State)
    requires IsLateral(maxWidth, ws) && n >= 2 && 0 < a < b < |ws| && 1 <= h <= ws[a].width && maxWidth >= 2
    ensures Calm(SetupOf(maxWidth, n, ws), ws, b, th, s) && AllLevel(s) && Lingers(ws, a, h, th)
    ensures forall i :: 0 < i < |s.subs| ==> s.subs[i].put.count <= ws[b - 1].max
  {
    var c := SetupOf(maxWidth, n, ws);
    StartCalm(maxWidth, n, ws);
    s := AdvanceTo(c, ws, 1, a, FRESH, Init(maxWidth, ws[1].width, ws[1].depth, n), 1);
    th, s := Linger(c, ws, a, s, h);
    s := AdvanceTo(c, ws, a, b - 1, th, s, 1);
    s := NextWindow(c, ws, b - 1, th, s);
  }

  /** Thread 0 goes on and finds the get window to be b, its hops as they were. */
  lemma Resume(c: Setup, ws: seq<Win>, a: nat, b: nat, th: Thread, s: State, h: nat)
    requires IsLateral(c.maxWidth, ws) && 0 < a < b < |ws| && Lingers(ws, a, h, th) && Reached(c, s) && !s.crashed
    requires s.wins == ws[..b + 1] && s.tail == b && s.head == b - 1 && |s.threads| >= 2 && s.threads[0] == th
    requires |s.subs| == c.maxWidth
    ensures ReachedAt(c, s, 0, th.SyncHead(b - 1, ws[b].width))
  {
    assert s.At(0, th) == s;
    ReadHalves(c, s, 0, th);
    var x := s.subs[th.index];
    ReadGet(c, s, 0, th.To(GetCheck(x.get.node, x.get.count, Seen(s, th.win, th.head, th.index))), 0);
    assert th.SyncHead(b - 1, ws[b].width).To(GetRead) == th.SyncHead(b - 1, ws[b].width);
  }

  /** Whenever a window is narrower than an earlier one, some run has a dequeuer search it with as many hops
      still to make as the counter has values, but one. */
  lemma SpinReached(maxWidth: Width, n: nat, ws: seq<Win>, a: nat, b: nat) returns (s: State)
    requires IsLateral(maxWidth, ws) && n >= 2 && 0 < a < b < |ws| && ws[b].width < ws[a].width
    ensures Reached(SetupOf(maxWidth, n, ws), s) && s.tail == b && s.wins == ws[..b + 1]
    ensures Searches(s, 0) && s.threads[0].head + 1 == b && !SomethingIn(s, s.threads[0].win, b - 1)
    ensures ToGo(s, 0) == 4 * COUNTER
  {
    var c, h := SetupOf(maxWidth, n, ws), ws[b].width + 1;
    var th;
    th, s := LingerUntil(maxWidth, n, ws, a, b, h);
    Resume(c, ws, a, b, th, s, h);
    assert Above(ws, a, b);
    s := s.At(0, th.SyncHead(b - 1, ws[b].width));
    ReachedInv(c, s);
  }

  lemma {:induction false} HopPast(c: Setup, s: State, t: nat, th: Thread, h: nat) returns (th1: Thread)
    requires ReachedAt(c, s, t, th) && Named(s, th) && !s.crashed && th.pc.GetRead? && th.head == s.head
    requires th.random == RANDOM_HOPS && th.index + h == th.hops <= s.wins[th.head + 1].width <= |s.subs| && h >= 1
    requires s.wins[th.head + 1].width < COUNTER
    requires forall j :: 0 <= j <= s.wins[th.head + 1].width - h ==> !Takeable(s, th.win, th.head, j)
    ensures th1.index + h == s.wins[th.head + 1].width && th1.index < |s.subs|
    ensures var x := s.subs[th1.index];
            th1 == th.(index := th1.index, hops := th1.hops).To(GetShift(x.get.node, x.get.count))
    ensures ReachedAt(c, s, t, th1)
    decreases s.wins[th.head + 1].width - th.hops
  {
    var w := s.wins[th.head + 1].width;
    Turn(c, s, t, th, 0);
    if th.hops < w {
      th1 := HopPast(c, s, t, th.Hop(w, 0).To(GetRead), h);
    } else {
      var x := s.subs[th.index];
      th1 := th.To(GetShift(x.get.node, x.get.count));
    }
  }

  /** Whenever a window is wider than an earlier one that was not a single sub-queue wide, some run has a
      dequeuer give up in it, and answer that the queue is empty, with an item left to take that was
      there before it came to the window. */
  lemma GivesUpEarly(maxWidth: Width, n: nat, ws: seq<Win>, a: nat, b: nat) returns (s: State, s1: State)
    requires IsLateral(maxWidth, ws) && n >= 2 && 0 < a < b < |ws| && 2 <= ws[a].width < ws[b].width
    ensures Reached(SetupOf(maxWidth, n, ws), s) && |s.threads| >= 2 && s.threads[0].head + 1 < b < |s.wins|
    ensures s.tail == b && SomethingIn(s, b, b - 1)
    ensures Reached(SetupOf(maxWidth, n, ws), s1) && SameShared(s, s1) && |s1.threads| == |s.threads|
    ensures s1.threads == s.threads[0 := s1.threads[0]] && s1.threads[0].pc.Idle?
  {
    var c, h, j := SetupOf(maxWidth, n, ws), ws[a].width, ws[b].width - 1;
    var th;
    th, s := LingerUntil(maxWidth, n, ws, a, b, h);
    var s0 := s;
    assert Adjacent(ws[b - 1], ws[b]);
    Enqueue(c, s0, 1, 0, j);
    s := s0.SetSub(j, Grown(s0, j, 0)).At(1, Thread(j, b, b - 1, 0, 0, false, Idle));
    Resume(c, ws, a, b, th, s, h);
    assert Takeable(s, b, b - 1, j);
    s1 := GiveUp(c, ws, b, s, th.SyncHead(b - 1, ws[b].width), h);
  }

  lemma GiveUp(c: Setup, ws: seq<Win>, b: nat, s: State, th: Thread, h: nat) returns (s1: State)
    requires IsLateral(c.maxWidth, ws) && 1 < b < |ws| && s.wins == ws[..b + 1] && s.tail == b && s.head == b - 1
    requires ReachedAt(c, s, 0, th) && !s.crashed && |s.subs| == c.maxWidth && h >= 1
    requires th.pc.GetRead? && th.head == b - 1 && 1 <= th.win < b && th.random == RANDOM_HOPS && th.hops == h
    requires th.index == 0 && h < ws[b].width
    requires forall j :: 0 <= j <= ws[b].width - h ==> Even(s.subs[j]) && Level(s.subs[j])
    ensures Reached(c, s1) && SameShared(s, s1) && |s1.threads| == |s.threads| >= 1
    ensures s1.threads == s.threads[0 := s1.threads[0]] && s1.threads[0].pc.Idle?
  {
    assert Above(ws, th.win, b);
    var th1 := HopPast(c, s, 0, th, h);
    var x := s.subs[th1.index];
    ReadGet(c, s, 0, th1, 0);
    var th2 := th1.To(DeqTail(x.get.node, x.get.count));
    ReadTailHalves(c, s, 0, th1, x.get.node, x.get.count);
    ReadDeq(c, s, 0, th1.To(DeqNext(x.get.node, x.get.count, x.put.node, x.put.count)));
    s1 := s.At(0, th1.To(Idle));
  }
}
