/** The deque is lock-free: over every run, the number of steps is bounded by the operations that were
    begun and those that took effect, so threads cannot keep each other from making progress.

    Between two anchor CASes each thread has only so many steps to take before it is done or tries an
    anchor CAS itself; every other anchor CAS is a push or a pop. */
module DequeProgress {
  import opened Accounting
  import opened Schedule
  import opened Deque

  const LIMIT: nat := 15

  /** The link a stabilizer has yet to repair is right already, or nothing needs repair. */
  predicate Repaired(s: State, g: Abs)
    requires HeapOk(s, g) && ChainOk(s, g)
  {
    s.anchors[s.Cur()].status.Push? ==> Linked(s, g, s.anchors[s.Cur()].status.side)
  }

  /** Steps still to take from the top of the retry loop. */
  function Restart(s: State, g: Abs, job: Job): nat
    requires HeapOk(s, g) && ChainOk(s, g)
  {
    if job.NoJob? then 0 else if s.anchors[s.Cur()].status.Stable? then 4 else if Repaired(s, g) then 6 else 13
  }

  function Pending(pc: Pc): nat {
    match pc
    case LinkOwn(_) => 2
    case ReadInner(_) => 2
    case StabReadPrev(_) => 2
    case StabReadLink(_, _) => 2
    case _ => 1
  }

  /** Steps still to take from pc if its anchor is current and repaired or not. */
  function Ahead(pc: Pc, repaired: bool): nat {
    match pc
    case LinkOwn(_) => 2
    case Recheck(_) => 3
    case ReadInner(_) => 2
    case StabCheck1(_) => if repaired then 5 else 12
    case StabReadPrev(_) => if repaired then 4 else 11
    case StabCheck2(_, _) => if repaired then 3 else 10
    case StabReadLink(_, _) => if repaired then 2 else 9
    case StabCheck3(_, _, _) => 8
    case StabSwapLink(_, _, _) => 7
    case _ => 1
  }

  /** An upper bound on the steps a thread can take before the next anchor CAS succeeds. */
  function Work(s: State, g: Abs, th: Thread): nat
    requires HeapOk(s, g) && ChainOk(s, g)
  {
    if th.pc.Rest? then Restart(s, g, th.job)
    else if th.pc.a != s.Cur() then Restart(s, g, th.job) + Pending(th.pc)
    else Ahead(th.pc, Repaired(s, g))
  }

  lemma WorkBounded(s: State, g: Abs, th: Thread)
    requires HeapOk(s, g) && ChainOk(s, g)
    ensures Work(s, g, th) <= LIMIT
  {
  }

  /** While the anchor a stabilizer holds is current, the link it read changes only by being repaired. */
  predicate SeenOk(s: State, g: Abs, th: Thread)
    requires HeapOk(s, g) && ChainOk(s, g)
  {
    (th.pc.StabCheck3? || th.pc.StabSwapLink?) && th.pc.a == s.Cur() && th.pc.prev < |s.nodes| &&
        s.anchors[th.pc.a].status.Push? ==>
      s.nodes[th.pc.prev].Link(s.anchors[th.pc.a].status.side) == th.pc.seen || Repaired(s, g)
  }

  ghost predicate Ok(s: State, g: Abs) {
    Inv(s, g) && forall t {:trigger s.threads[t]} :: 0 <= t < |s.threads| ==> SeenOk(s, g, s.threads[t])
  }

  /** A step that installs no anchor changes, of what others can see, at most the one wrong link. */
  ghost predicate Quiet(s: State, g: Abs, s1: State) {
    && HeapOk(s, g) && ChainOk(s, g) && HeapOk(s1, g) && ChainOk(s1, g)
    && s1.anchors == s.anchors && |s.nodes| <= |s1.nodes|
    && (Repaired(s, g) ==> Repaired(s1, g))
    && (Repaired(s1, g) || forall p, d: Side :: p in g.pub ==> s1.nodes[p].Link(d) == s.nodes[p].Link(d))
  }

  lemma QuietKeeps(s: State, g: Abs, s1: State, th: Thread)
    requires Quiet(s, g, s1) && Inv(s, g) && ThreadOk(s, g, th) && SeenOk(s, g, th)
    ensures SeenOk(s1, g, th) && Work(s1, g, th) <= Work(s, g, th)
  {
  }

  lemma LinkOwnQuiet(s: State, g: Abs, t: nat)
    requires Inv(s, g) && Enabled(s, t, Go) && s.threads[t].pc.LinkOwn? && Inv(Step(s, t, Go).0, g)
    ensures Quiet(s, g, Step(s, t, Go).0)
  {
    assert ThreadOk(s, g, s.threads[t]);
    var s1 := Step(s, t, Go).0;
    assert forall p :: p in g.pub ==> s1.nodes[p] == s.nodes[p];
  }

  lemma SwapLinkQuiet(s: State, g: Abs, t: nat)
    requires Inv(s, g) && Enabled(s, t, Go) && s.threads[t].pc.StabSwapLink? && Inv(Step(s, t, Go).0, g)
    ensures Quiet(s, g, Step(s, t, Go).0)
  {
    assert ThreadOk(s, g, s.threads[t]);
    if s.threads[t].pc.a != s.Cur() { StaleSwapFails(s, g, t); }
  }

  lemma StepQuiet(s: State, g: Abs, t: nat, act: Action)
    requires Inv(s, g) && Enabled(s, t, act) && Inv(Step(s, t, act).0, g) && Step(s, t, act).0.anchors == s.anchors
    ensures Quiet(s, g, Step(s, t, act).0)
  {
    if act.Go? && s.threads[t].pc.LinkOwn? { LinkOwnQuiet(s, g, t); }
    else if act.Go? && s.threads[t].pc.StabSwapLink? { SwapLinkQuiet(s, g, t); }
  }

  /** The step took one off the thread's work. */
  ghost predicate Worked(s: State, g: Abs, t: nat)
    requires Enabled(s, t, Go) && HeapOk(s, g) && ChainOk(s, g)
  {
    var s1 := Step(s, t, Go).0;
    && HeapOk(s1, g) && ChainOk(s1, g) && t < |s1.threads|
    && Work(s1, g, s1.threads[t]) < Work(s, g, s.threads[t]) && SeenOk(s1, g, s1.threads[t])
  }

  lemma LoopWorks(s: State, g: Abs, t: nat)
    requires Ok(s, g) && Enabled(s, t, Go) && !StabPc(s.threads[t].pc) && Step(s, t, Go).0.anchors == s.anchors
    requires Quiet(s, g, Step(s, t, Go).0)
    ensures Worked(s, g, t)
  {
    assert ThreadOk(s, g, s.threads[t]);
  }

  lemma CheckWorks(s: State, g: Abs, t: nat)
    requires Ok(s, g) && Enabled(s, t, Go)
    requires s.threads[t].pc.StabCheck1? || s.threads[t].pc.StabCheck2? || s.threads[t].pc.StabCheck3?
    requires Step(s, t, Go).0.anchors == s.anchors && Quiet(s, g, Step(s, t, Go).0)
    ensures Worked(s, g, t)
  {
    assert ThreadOk(s, g, s.threads[t]) && SeenOk(s, g, s.threads[t]);
  }

  lemma ReadWorks(s: State, g: Abs, t: nat)
    requires Ok(s, g) && Enabled(s, t, Go) && (s.threads[t].pc.StabReadPrev? || s.threads[t].pc.StabReadLink?)
    requires Step(s, t, Go).0.anchors == s.anchors && Quiet(s, g, Step(s, t, Go).0)
    ensures Worked(s, g, t)
  {
    assert ThreadOk(s, g, s.threads[t]) && SeenOk(s, g, s.threads[t]);
  }

  lemma SwapWorks(s: State, g: Abs, t: nat)
    requires Ok(s, g) && Enabled(s, t, Go) && (s.threads[t].pc.StabSwapLink? || s.threads[t].pc.StabSwap?)
    requires Step(s, t, Go).0.anchors == s.anchors && Quiet(s, g, Step(s, t, Go).0)
    ensures Worked(s, g, t)
  {
    assert ThreadOk(s, g, s.threads[t]) && SeenOk(s, g, s.threads[t]);
    if s.threads[t].pc.StabSwapLink? && s.threads[t].pc.a != s.Cur() { StaleSwapFails(s, g, t); }
  }

  /** A thread's own step takes one off its work, which is never above LIMIT, unless an anchor was installed. */
  lemma StepWorks(s: State, g: Abs, t: nat)
    requires Ok(s, g) && Enabled(s, t, Go) && Step(s, t, Go).0.anchors == s.anchors && Inv(Step(s, t, Go).0, g)
    ensures Worked(s, g, t) && Work(s, g, s.threads[t]) <= LIMIT
  {
    StepQuiet(s, g, t, Go);
    WorkBounded(s, g, s.threads[t]);
    var pc := s.threads[t].pc;
    if !StabPc(pc) { LoopWorks(s, g, t); }
    else if pc.StabSwapLink? || pc.StabSwap? { SwapWorks(s, g, t); }
    else if pc.StabReadPrev? || pc.StabReadLink? { ReadWorks(s, g, t); }
    else { CheckWorks(s, g, t); }
  }

  // ---------------------------------------------------------------------------------------------
  // Adding up over all threads

  function Works(s: State, g: Abs): seq<nat>
    requires HeapOk(s, g) && ChainOk(s, g)
  {
    seq(|s.threads|, t requires 0 <= t < |s.threads| => Work(s, g, s.threads[t]))
  }

  function Total(s: State, g: Abs): nat
    requires HeapOk(s, g) && ChainOk(s, g)
  {
    Sum(Works(s, g))
  }

  lemma TotalBounded(s: State, g: Abs)
    requires HeapOk(s, g) && ChainOk(s, g)
    ensures Total(s, g) <= LIMIT * |s.threads|
    ensures forall t :: 0 <= t < |s.threads| ==> Work(s, g, s.threads[t]) <= Total(s, g)
  {
    forall t | 0 <= t < |s.threads| ensures Works(s, g)[t] <= LIMIT { WorkBounded(s, g, s.threads[t]); }
    SumBounded(Works(s, g), LIMIT);
    EachBelowSum(Works(s, g));
    assert forall t :: 0 <= t < |s.threads| ==> Works(s, g)[t] == Work(s, g, s.threads[t]);
  }

  function Cost(act: Action): int {
    match act
    case Go => -1
    case GiveUp => 0
    case _ => LIMIT
  }

  lemma OwnWork(s: State, g: Abs, t: nat, act: Action)
    requires Ok(s, g) && Enabled(s, t, act) && Inv(Step(s, t, act).0, g) && Step(s, t, act).0.anchors == s.anchors
    ensures var s1 := Step(s, t, act).0;
            t < |s1.threads| && Work(s1, g, s1.threads[t]) <= Work(s, g, s.threads[t]) + Cost(act) &&
                SeenOk(s1, g, s1.threads[t])
  {
    if act.Go? { StepWorks(s, g, t); } else { WorkBounded(s, g, Step(s, t, act).0.threads[t]); }
  }

  lemma QuietStep(s: State, g: Abs, t: nat, act: Action)
    requires Ok(s, g) && Enabled(s, t, act) && Inv(Step(s, t, act).0, g) && Step(s, t, act).0.anchors == s.anchors
    ensures var s1 := Step(s, t, act).0;
            Ok(s1, g) && |s1.threads| == |s.threads| && Total(s1, g) <= Total(s, g) + Cost(act)
  {
    var s1 := Step(s, t, act).0;
    StepQuiet(s, g, t, act);
    OwnWork(s, g, t, act);
    assert |s1.threads| == |s.threads| && forall u :: 0 <= u < |s.threads| && u != t ==> s1.threads[u] == s.threads[u];
    forall u | 0 <= u < |s.threads| && u != t
      ensures SeenOk(s1, g, s1.threads[u]) && Work(s1, g, s1.threads[u]) <= Work(s, g, s.threads[u])
    {
      assert ThreadOk(s, g, s.threads[u]) && SeenOk(s, g, s.threads[u]);
      QuietKeeps(s, g, s1, s.threads[u]);
    }
    SumChanges(Works(s, g), Works(s1, g), t, Cost(act));
  }

  predicate OutOfDate(s: State, th: Thread) { !th.pc.Rest? ==> th.pc.a + 1 < |s.anchors| }

  lemma InstallMoves(s: State, g: Abs, t: nat, act: Action)
    requires Inv(s, g) && Enabled(s, t, act) && Step(s, t, act).0.anchors != s.anchors
    ensures var s1 := Step(s, t, act).0;
            && act.Go? && |s1.anchors| == |s.anchors| + 1 && Work(s, g, s.threads[t]) >= 1
            && |s1.threads| == |s.threads| && (s1.threads[t].pc.Rest? || s1.threads[t].pc.StabCheck1?)
            && forall u :: 0 <= u < |s.threads| && u != t ==> s1.threads[u] == s.threads[u]
  {
    assert ThreadOk(s, g, s.threads[t]);
  }

  /** An anchor CAS leaves every other thread with an anchor that is out of date. */
  lemma InstallStep(s: State, g: Abs, t: nat, act: Action, g1: Abs)
    requires Ok(s, g) && Enabled(s, t, act) && Inv(Step(s, t, act).0, g1) && Step(s, t, act).0.anchors != s.anchors
    ensures var s1 := Step(s, t, act).0;
            && Ok(s1, g1) && act.Go? && |s1.threads| == |s.threads| && |s1.anchors| == |s.anchors| + 1
            && Work(s, g, s.threads[t]) >= 1
    ensures var s1 := Step(s, t, act).0;
            forall u :: 0 <= u < |s.threads| && u != t ==> s1.threads[u] == s.threads[u] && OutOfDate(s1, s1.threads[u])
  {
    InstallMoves(s, g, t, act);
    var s1 := Step(s, t, act).0;
    forall u | 0 <= u < |s1.threads|
      ensures SeenOk(s1, g1, s1.threads[u]) && (u != t ==> OutOfDate(s1, s1.threads[u]))
    {
      assert ThreadOk(s, g, s.threads[u]);
    }
  }

  /** 1 while a pushed node is not yet stable. */
  function Unstable(s: State): nat requires s.anchors != [] {
    if s.anchors[s.Cur()].status.Push? then 1 else 0
  }

  function Effect(e: Event): nat { if e.Pushed? || e.Popped? then 1 else 0 }

  /** Every anchor CAS is a push, a pop, or makes the last push stable. */
  lemma AnchorsAccounted(s: State, g: Abs, t: nat, act: Action)
    requires Inv(s, g) && Enabled(s, t, act)
    ensures var (s1, e) := Step(s, t, act);
            s1.anchors != [] && |s1.anchors| + Unstable(s1) <= |s.anchors| + Unstable(s) + 2 * Effect(e)
  {
    assert ThreadOk(s, g, s.threads[t]);
  }

  // ---------------------------------------------------------------------------------------------
  // Whole runs

  function IsCall(act: Action): nat { if act.CallPush? || act.CallPop? then 1 else 0 }
  function IsAccess(act: Action): nat { if act.Go? then 1 else 0 }

  /** The account after a run: accesses made and work left are covered by the anchors installed and
      the calls made, and the anchors by the operations that took effect. */
  ghost predicate Ledger(s: State, g: Abs, n: nat, accesses: nat, calls: nat, done: nat) {
    && Ok(s, g) && |s.threads| == n
    && accesses + Total(s, g) <= Allowance(LIMIT, n, s.Cur(), calls)
    && s.Cur() + Unstable(s) <= 2 * done
  }

  lemma LedgerQuiet(s: State, g: Abs, n: nat, accesses: nat, calls: nat, t: nat, act: Action)
    requires Ok(s, g) && |s.threads| == n && accesses + Total(s, g) <= Allowance(LIMIT, n, s.Cur(), calls)
    requires Enabled(s, t, act) && Inv(Step(s, t, act).0, g) && Step(s, t, act).0.anchors == s.anchors
    ensures var s1 := Step(s, t, act).0;
            Ok(s1, g) && |s1.threads| == n &&
                accesses + IsAccess(act) + Total(s1, g) <= Allowance(LIMIT, n, s1.Cur(), calls + IsCall(act))
  {
    QuietStep(s, g, t, act);
    AllowanceGrows(LIMIT, n, s.Cur(), calls);
  }

  lemma LedgerInstall(s: State, g: Abs, n: nat, accesses: nat, calls: nat, t: nat, act: Action, g1: Abs)
    requires Ok(s, g) && |s.threads| == n && accesses + Total(s, g) <= Allowance(LIMIT, n, s.Cur(), calls)
    requires Enabled(s, t, act) && Inv(Step(s, t, act).0, g1) && Step(s, t, act).0.anchors != s.anchors
    ensures var s1 := Step(s, t, act).0;
            Ok(s1, g1) && |s1.threads| == n &&
                accesses + IsAccess(act) + Total(s1, g1) <= Allowance(LIMIT, n, s1.Cur(), calls + IsCall(act))
  {
    InstallStep(s, g, t, act, g1);
    TotalBounded(s, g);
    TotalBounded(Step(s, t, act).0, g1);
    AllowanceGrows(LIMIT, n, s.Cur(), calls);
  }

  lemma LedgerStep(s: State, g: Abs, n: nat, accesses: nat, calls: nat, done: nat, m: Move<Action>) returns (g1: Abs)
    requires Ledger(s, g, n, accesses, calls, done) && Enabled(s, m.t, m.act)
    ensures var (s1, e) := Step(s, m.t, m.act);
            Ledger(s1, g1, n, accesses + IsAccess(m.act), calls + IsCall(m.act), done + Effect(e))
  {
    g1 := StepSimulated(s, g, m.t, m.act);
    AnchorsAccounted(s, g, m.t, m.act);
    if Step(s, m.t, m.act).0.anchors == s.anchors {
      LedgerQuiet(s, g, n, accesses, calls, m.t, m.act);
    } else {
      LedgerInstall(s, g, n, accesses, calls, m.t, m.act, g1);
    }
  }

  lemma NoWork(n: nat)
    ensures var s, g := Init(n), Abs([], {}); HeapOk(s, g) && ChainOk(s, g) && Total(s, g) == 0
  {
    SumBounded(Works(Init(n), Abs([], {})), 0);
  }

  lemma {:induction false} RunLedger(n: nat, run: seq<State>, moves: seq<Move<Action>>, events: seq<Event>)
    returns (g: Abs)
    requires IsRunOf(n, run, moves, events)
    ensures Ledger(run[|moves|], g, n, Count(moves, IsAccess), Count(moves, IsCall), Effects(events, Effect))
    decreases |moves|
  {
    if moves == [] {
      g := Abs([], {});
      NoWork(n);
    } else {
      var k := |moves| - 1;
      ChainPrefix(run, moves, events, Makes);
      g := RunLedger(n, run[..k + 1], moves[..k], events[..k]);
      g := LedgerStep(run[k], g, n, Count(moves[..k], IsAccess), Count(moves[..k], IsCall),
                      Effects(events[..k], Effect), moves[k]);
    }
  }

  /** Lock-freedom, over every run of n threads: once nothing is called any more, only so many accesses
      can be made before another push or pop takes effect. */
  lemma LockFree(n: nat, run: seq<State>, moves: seq<Move<Action>>, events: seq<Event>)
    requires IsRunOf(n, run, moves, events)
    ensures Count(moves, IsAccess) <= Allowance(LIMIT, n, 2 * Effects(events, Effect), Count(moves, IsCall))
  {
    var g := RunLedger(n, run, moves, events);
    AllowanceMonotone(LIMIT, n, run[|moves|].Cur(), 2 * Effects(events, Effect), Count(moves, IsCall));
  }

  // ---------------------------------------------------------------------------------------------
  // Every call ends once

  /** A push or a pop took effect, or a pop gave up. */
  function Ended(e: Event): nat { if e.Silent? then 0 else 1 }

  function Owed(s: State): seq<nat> {
    seq(|s.threads|, t requires 0 <= t < |s.threads| => if s.threads[t].job.NoJob? then 0 else 1)
  }

  function AllOwed(s: State): nat { Sum(Owed(s)) }

  lemma OwedStep(s: State, t: nat, act: Action)
    requires Enabled(s, t, act)
    ensures var (s1, e) := Step(s, t, act); AllOwed(s1) + Ended(e) == AllOwed(s) + IsCall(act)
  {
    var s1 := Step(s, t, act).0;
    assert |s1.threads| == |s.threads| && s1.threads == s.threads[t := s1.threads[t]];
    var owes := if s1.threads[t].job.NoJob? then 0 else 1;
    SumUpdate(Owed(s), t, owes);
    assert Owed(s1) == Owed(s)[t := owes];
  }

  function Owes(s: State, t: nat): nat { if t < |s.threads| && !s.threads[t].job.NoJob? then 1 else 0 }

  lemma OwesMakes(s: State, m: Move<Action>, s1: State, e: Event, t: nat)
    requires Makes(s, m, s1, e)
    ensures Owes(s1, t) + (if m.t == t then Ended(e) else 0) == Owes(s, t) + if m.t == t then IsCall(m.act) else 0
  {
  }

  /** From any state on, each call of a thread ends exactly once, in an effect or, if it is a pop, given up;
      counting the call it is in. */
  lemma OncePerCall(run: seq<State>, moves: seq<Move<Action>>, events: seq<Event>, t: nat)
    requires Chain(run, moves, events, Makes)
    ensures EffectsBy(moves, events, Ended, t) + Owes(run[|moves|], t) == CountBy(moves, IsCall, t) + Owes(run[0], t)
  {
    forall s, m, s1, e | Makes(s, m, s1, e)
      ensures Owes(s1, t) + (if m.t == t then Ended(e) else 0) == Owes(s, t) + if m.t == t then IsCall(m.act) else 0
    {
      OwesMakes(s, m, s1, e, t);
    }
    EffectsCalled(run, moves, events, Makes, Owes, Ended, IsCall, t);
  }

  lemma {:induction false} EffectsEnd(events: seq<Event>)
    ensures Effects(events, Effect) <= Effects(events, Ended)
  {
    if events != [] { EffectsEnd(events[..|events| - 1]); }
  }

  lemma DoneCalled(n: nat, run: seq<State>, moves: seq<Move<Action>>, events: seq<Event>)
    requires IsRunOf(n, run, moves, events)
    ensures Effects(events, Ended) + AllOwed(run[|moves|]) == Count(moves, IsCall)
    ensures Effects(events, Effect) <= Effects(events, Ended)
  {
    forall s, m, s1, e | Makes(s, m, s1, e) ensures AllOwed(s1) + Ended(e) == AllOwed(s) + IsCall(m.act) {
      OwedStep(s, m.t, m.act);
    }
    AllEffectsCalled(run, moves, events, Makes, AllOwed, Ended, IsCall);
    SumBounded(Owed(run[0]), 0);
    EffectsEnd(events);
  }

  /** So whatever the schedule, all calls together make only so many accesses. */
  lemma AllCallsEnd(n: nat, run: seq<State>, moves: seq<Move<Action>>, events: seq<Event>)
    requires IsRunOf(n, run, moves, events)
    ensures Count(moves, IsAccess) <= Allowance(LIMIT, n, 2 * Count(moves, IsCall), Count(moves, IsCall))
  {
    LockFree(n, run, moves, events);
    DoneCalled(n, run, moves, events);
    AllowanceMonotone(LIMIT, n, 2 * Effects(events, Effect), 2 * Count(moves, IsCall), Count(moves, IsCall));
  }
}
