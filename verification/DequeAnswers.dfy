/** What the calls of the deque come to, at access level: every push adds its own value at its own end,
    exactly once; every pop takes an item from its own end, or gives up; and the counts in the anchor,
    which the windows go by, are those of the pushes and pops at each end. */
module DequeAnswers {
  import opened Schedule
  import opened Deque

  datatype Call = PushAt(d: Side, v: int) | PopAt(side: Side)

  function Called(act: Action): Maybe<Call> {
    match act
    case CallPush(d, v) => Yes(PushAt(d, v))
    case CallPop(d) => Yes(PopAt(d))
    case _ => No
  }

  predicate IsAnswer(e: Event) { !e.Silent? }

  predicate Answering(c: Call, e: Event) {
    match c
    case PushAt(d, v) => e == Pushed(d, v)
    case PopAt(d) => (e.Popped? && e.side == d) || e.GaveUp?
  }

  /** What a thread waits for: its job, with the value in the node it is to publish. */
  function WaitsAt(s: State, job: Job): Maybe<Call> {
    match job
    case NoJob => No
    case PushJob(d, node) => Yes(PushAt(d, if node < |s.nodes| then s.nodes[node].val else 0))
    case PopJob(d) => Yes(PopAt(d))
  }

  function Waits(s: State, t: nat): Maybe<Call> { if t < |s.threads| then WaitsAt(s, s.threads[t].job) else No }

  ghost predicate NodesMade(s: State) {
    forall t :: 0 <= t < |s.threads| && s.threads[t].job.PushJob? ==> s.threads[t].job.node < |s.nodes|
  }

  /** Values never change. */
  ghost predicate SameValues(s: State, s1: State) {
    |s.nodes| <= |s1.nodes| && forall p :: 0 <= p < |s.nodes| ==> s1.nodes[p].val == s.nodes[p].val
  }

  lemma StepTold(s: State, t: nat, act: Action)
    requires Enabled(s, t, act) && NodesMade(s)
    ensures var (s1, e) := Step(s, t, act);
            && NodesMade(s1) && SameValues(s, s1)
            && |s1.threads| == |s.threads| && s1.threads == s.threads[t := s1.threads[t]]
            && Fits(Move(t, act), e, Waits(s, t), Called, IsAnswer, Answering)
            && Waits(s1, t) == if Called(act).Yes? then Called(act) else if IsAnswer(e) then No else Waits(s, t)
  {
  }

  ghost predicate MakesOk(s: State, m: Move<Action>, s1: State, e: Event) { NodesMade(s) && Makes(s, m, s1, e) }

  lemma {:induction false} NodesStayMade(n: nat, run: seq<State>, moves: seq<Move<Action>>, events: seq<Event>, k: nat)
    requires IsRunOf(n, run, moves, events) && k <= |moves|
    ensures NodesMade(run[k])
  {
    if k > 0 {
      NodesStayMade(n, run, moves, events, k - 1);
      ChainAt(run, moves, events, Makes, k - 1);
      StepTold(run[k - 1], moves[k - 1].t, moves[k - 1].act);
    }
  }

  /** Over every run: each push called adds its own value at its own end, exactly once, and each pop called
      takes an item from its own end or gives up, before its thread calls again; nothing else is ever
      pushed or popped.  A thread that has no job has its answer. */
  lemma EachAnswered(n: nat, run: seq<State>, moves: seq<Move<Action>>, events: seq<Event>)
    requires IsRunOf(n, run, moves, events)
    ensures Answered(moves, events, Called, IsAnswer, Answering)
    ensures forall t :: 0 <= t < n && t < |run[|moves|].threads| && run[|moves|].threads[t].job.NoJob? ==>
        Waiting(moves, events, Called, IsAnswer, t) == No
  {
    forall k | 0 <= k < |moves| ensures MakesOk(run[k], moves[k], run[k + 1], events[k]) {
      NodesStayMade(n, run, moves, events, k);
      ChainAt(run, moves, events, Makes, k);
    }
    forall s, m, s1, e | MakesOk(s, m, s1, e)
      ensures Fits(m, e, Waits(s, m.t), Called, IsAnswer, Answering)
      ensures forall u :: u != m.t ==> Waits(s1, u) == Waits(s, u)
      ensures Waits(s1, m.t) == if Called(m.act).Yes? then Called(m.act) else if IsAnswer(e) then No else Waits(s, m.t)
    {
      StepTold(s, m.t, m.act);
    }
    AllAnswered(run, moves, events, MakesOk, Waits, Called, IsAnswer, Answering);
  }

  // ---------------------------------------------------------------------------------------------
  // The counts in the anchor

  function Puts(a: Anchor, d: Side): nat { if d.L? then a.putLeft else a.putRight }
  function Gets(a: Anchor, d: Side): nat { if d.L? then a.getLeft else a.getRight }

  function PushOn(d: Side): Event -> nat { (e: Event) => if e.Pushed? && e.d == d then 1 else 0 }
  function PopOn(d: Side): Event -> nat { (e: Event) => if e.Popped? && e.side == d then 1 else 0 }

  lemma StepCounts(s: State, t: nat, act: Action, d: Side)
    requires Enabled(s, t, act)
    ensures var (s1, e) := Step(s, t, act);
            && s1.anchors != []
            && Puts(s1.anchors[s1.Cur()], d) == Puts(s.anchors[s.Cur()], d) + PushOn(d)(e)
            && Gets(s1.anchors[s1.Cur()], d) == Gets(s.anchors[s.Cur()], d) + PopOn(d)(e)
  {
  }

  /** Over every run: the put and get counts of each end are the pushes and pops that took effect there. */
  lemma {:induction false} CountsTold(n: nat, run: seq<State>, moves: seq<Move<Action>>, events: seq<Event>, d: Side)
    requires IsRunOf(n, run, moves, events)
    ensures var s := run[|moves|];
            && s.anchors != []
            && Puts(s.anchors[s.Cur()], d) == Effects(events, PushOn(d))
            && Gets(s.anchors[s.Cur()], d) == Effects(events, PopOn(d))
    decreases |moves|
  {
    if moves != [] {
      var k := |moves| - 1;
      ChainPrefix(run, moves, events, Makes);
      CountsTold(n, run[..k + 1], moves[..k], events[..k], d);
      StepCounts(run[k], moves[k].t, moves[k].act, d);
    }
  }
}
