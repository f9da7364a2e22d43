/** One sub-deque of the 2D deque at access level: every shared read, store and CAS is a step of
    its own, any number of threads may be anywhere in push, pop or stabilize, and any of them may
    hold a stale anchor.

    The left and right versions of the C functions are mirror images, so each is written once and
    takes the side it works on.  Anchors are never changed after they are published and are never
    recycled: the sequence of all anchors ever installed plays the role of their addresses, the
    last one being `deque->anchor`. */
module Deque {
  import opened Schedule

  datatype Side = L | R {
    function Opp(): Side { if L? then R else L }
  }

  type Ptr = nat
  const NULL: Ptr := 0

  datatype Node = Node(val: int, left: Ptr, right: Ptr) {
    function Link(d: Side): Ptr { if d.L? then left else right }
    function SetLink(d: Side, p: Ptr): Node {
      if d.L? then this.(left := p) else this.(right := p)
    }
  }

  /** STATE_STABLE, STATE_LPUSH (`Push(L)`) and STATE_RPUSH (`Push(R)`). */
  datatype Status = Stable | Push(side: Side)

  datatype Anchor = Anchor(left: Ptr, right: Ptr, status: Status, putLeft: nat, putRight: nat, getLeft: nat,
                           getRight: nat) {
    function End(d: Side): Ptr { if d.L? then left else right }
    function SetEnd(d: Side, p: Ptr): Anchor {
      if d.L? then this.(left := p) else this.(right := p)
    }
    function CountPut(d: Side): Anchor {
      if d.L? then this.(putLeft := putLeft + 1) else this.(putRight := putRight + 1)
    }
    function CountGet(d: Side): Anchor {
      if d.L? then this.(getLeft := getLeft + 1) else this.(getRight := getRight + 1)
    }
  }

  /** What a thread still has to publish.  A pusher is done as soon as its anchor CAS succeeds. */
  datatype Job = NoJob | PushJob(d: Side, node: Ptr) | PopJob(side: Side)

  /** Program counters, each naming the access that comes next; `a` is the anchor the thread holds. */
  datatype Pc =
    | Rest                                         // top of the retry loop, or between calls
    | LinkOwn(a: nat)                              // store the inner pointer of the own node
    | SwapPush(a: nat)                             // CAS deque->anchor to publish the own node
    | Recheck(a: nat)                              // pop: is the anchor still current?
    | ReadInner(a: nat)                            // pop: read the inner neighbour
    | SwapPop(a: nat, inner: Ptr)                  // CAS deque->anchor to drop the end node
    | SwapLast(a: nat)                             // CAS deque->anchor to the empty anchor
    | StabCheck1(a: nat)
    | StabReadPrev(a: nat)
    | StabCheck2(a: nat, prev: Ptr)
    | StabReadLink(a: nat, prev: Ptr)
    | StabCheck3(a: nat, prev: Ptr, seen: Ptr)
    | StabSwapLink(a: nat, prev: Ptr, seen: Ptr)   // CAS of the neighbour's outer pointer
    | StabSwap(a: nat)                             // CAS deque->anchor to the stable copy

  datatype Thread = Thread(job: Job, pc: Pc)

  datatype State = State(nodes: seq<Node>, anchors: seq<Anchor>, threads: seq<Thread>) {
    function Cur(): nat requires anchors != [] { |anchors| - 1 }
    function At(t: nat, th: Thread): State requires t < |threads| {
      this.(threads := threads[t := th])
    }
    function Install(next: Anchor): State { this.(anchors := anchors + [next]) }
    function Store(p: Ptr, d: Side, v: Ptr): State requires p < |nodes| {
      this.(nodes := nodes[p := nodes[p].SetLink(d, v)])
    }
  }

  datatype Action = CallPush(d: Side, v: int) | CallPop(side: Side) | GiveUp | Go

  /** What an atomic step does to the abstract deque. */
  datatype Event = Silent | Pushed(d: Side, v: int) | Popped(side: Side, w: int) | GaveUp

  function Init(threadCount: nat): State {
    State([Node(0, NULL, NULL)], [Anchor(NULL, NULL, Stable, 0, 0, 0, 0)],
          seq(threadCount, _ => Thread(NoJob, Rest)))
  }

  predicate Alloc(s: State, p: Ptr) { 0 < p < |s.nodes| }

  /** Calls start only between calls; only a pop may be turned away by the window search. */
  predicate Enabled(s: State, t: nat, act: Action) {
    && s.anchors != [] && t < |s.threads|
    && var th := s.threads[t];
       match act
       case CallPush(_, _) => th == Thread(NoJob, Rest)
       case CallPop(_) => th == Thread(NoJob, Rest)
       case GiveUp => th.job.PopJob? && th.pc.Rest?
       case Go => Runnable(s, th)
  }

  /** The thread has a next access, and every pointer it dereferences there is a node. */
  predicate Runnable(s: State, th: Thread)
    requires s.anchors != []
  {
    match th.pc
    case Rest => th.job != NoJob && (th.job.PopJob? ==> s.anchors[s.Cur()].right != NULL)
    case LinkOwn(a) => th.job.PushJob? && Alloc(s, th.job.node) && a < |s.anchors|
    case SwapPush(a) => th.job.PushJob? && Alloc(s, th.job.node) && a < |s.anchors|
    case Recheck(a) => th.job.PopJob? && a < |s.anchors|
    case ReadInner(a) => th.job.PopJob? && a < |s.anchors| && Alloc(s, s.anchors[a].End(th.job.side))
    case SwapPop(a, _) => th.job.PopJob? && a < |s.anchors| && Alloc(s, s.anchors[a].End(th.job.side))
    case SwapLast(a) => th.job.PopJob? && a < |s.anchors| && Alloc(s, s.anchors[a].End(th.job.side))
    case StabCheck1(a) => StabReady(s, a)
    case StabReadPrev(a) => StabReady(s, a)
    case StabCheck2(a, _) => StabReady(s, a)
    case StabReadLink(a, prev) => StabReady(s, a) && Alloc(s, prev)
    case StabCheck3(a, prev, _) => StabReady(s, a) && Alloc(s, prev)
    case StabSwapLink(a, prev, _) => StabReady(s, a) && Alloc(s, prev)
    case StabSwap(a) => StabReady(s, a)
  }

  predicate StabReady(s: State, a: nat) {
    && a < |s.anchors| && s.anchors[a].status.Push?
    && Alloc(s, s.anchors[a].End(s.anchors[a].status.side))
  }

  function Step(s: State, t: nat, act: Action): (State, Event)
    requires Enabled(s, t, act)
  {
    var th := s.threads[t];
    match act
    case CallPush(d, v) =>
      (s.(nodes := s.nodes + [Node(v, NULL, NULL)]).At(t, Thread(PushJob(d, |s.nodes|), Rest)), Silent)
    case CallPop(d) => (s.At(t, Thread(PopJob(d), Rest)), Silent)
    case GiveUp => (s.At(t, Thread(NoJob, Rest)), GaveUp)
    case Go =>
      match th.pc
      case Rest => (s.At(t, th.(pc := if th.job.PushJob? then PushEntry(s, th.job.d) else PopEntry(s))), Silent)
      case LinkOwn(a) =>
        (s.Store(th.job.node, th.job.d.Opp(), s.anchors[a].End(th.job.d)).At(t, th.(pc := SwapPush(a))), Silent)
      case SwapPush(a) => StepSwapPush(s, t, th.job.d, th.job.node, a)
      case Recheck(a) => (s.At(t, th.(pc := if a == s.Cur() then ReadInner(a) else Rest)), Silent)
      case ReadInner(a) =>
        (s.At(t, th.(pc := SwapPop(a, s.nodes[s.anchors[a].End(th.job.side)].Link(th.job.side.Opp())))), Silent)
      case SwapPop(a, inner) =>
        StepPop(s, t, th.job.side, a, s.anchors[a].CountGet(th.job.side).SetEnd(th.job.side, inner))
      case SwapLast(a) =>
        StepPop(s, t, th.job.side, a, s.anchors[a].CountGet(th.job.side).SetEnd(L, NULL).SetEnd(R, NULL))
      case _ => (StepStab(s, t), Silent)
  }

  /** The branch a pusher takes on the anchor it has just loaded. */
  function PushEntry(s: State, d: Side): Pc requires s.anchors != [] {
    var a := s.anchors[s.Cur()];
    if a.End(d) == NULL then SwapPush(s.Cur())
    else if a.status.Stable? then LinkOwn(s.Cur())
    else StabCheck1(s.Cur())
  }

  function PopEntry(s: State): Pc requires s.anchors != [] {
    var a := s.anchors[s.Cur()];
    if a.right == a.left then SwapLast(s.Cur())
    else if a.status.Stable? then Recheck(s.Cur())
    else StabCheck1(s.Cur())
  }

  /** The anchor a pusher installs over the current one. */
  function PushAnchor(last: Anchor, d: Side, node: Ptr): Anchor {
    if last.End(d) == NULL then last.CountPut(d).SetEnd(L, node).SetEnd(R, node)
    else last.CountPut(d).SetEnd(d, node).(status := Push(d))
  }

  function StepSwapPush(s: State, t: nat, d: Side, node: Ptr, a: nat): (State, Event)
    requires s.anchors != [] && t < |s.threads| && a < |s.anchors| && Alloc(s, node)
  {
    if a != s.Cur() then (s.At(t, s.threads[t].(pc := Rest)), Silent)
    else
      var next := PushAnchor(s.anchors[a], d, node);
      var pc := if s.anchors[a].End(d) == NULL then Rest else StabCheck1(|s.anchors|);
      (s.Install(next).At(t, Thread(NoJob, pc)), Pushed(d, s.nodes[node].val))
  }

  function StepPop(s: State, t: nat, d: Side, a: nat, next: Anchor): (State, Event)
    requires s.anchors != [] && t < |s.threads| && a < |s.anchors| && Alloc(s, s.anchors[a].End(d))
  {
    if a != s.Cur() then (s.At(t, s.threads[t].(pc := Rest)), Silent)
    else (s.Install(next).At(t, Thread(NoJob, Rest)), Popped(d, s.nodes[s.anchors[a].End(d)].val))
  }

  /** stabilize_left and stabilize_right; the side is the one recorded in the anchor. */
  function StepStab(s: State, t: nat): State
    requires s.anchors != [] && t < |s.threads| && Runnable(s, s.threads[t])
    requires StabPc(s.threads[t].pc)
  {
    var th := s.threads[t];
    var a := th.pc.a;
    var end := s.anchors[a].End(s.anchors[a].status.side);
    var d := s.anchors[a].status.side;
    match th.pc
    case StabCheck1(_) => s.At(t, th.(pc := if a == s.Cur() then StabReadPrev(a) else Rest))
    case StabReadPrev(_) => s.At(t, th.(pc := StabCheck2(a, s.nodes[end].Link(d.Opp()))))
    case StabCheck2(_, prev) => s.At(t, th.(pc := if a == s.Cur() then StabReadLink(a, prev) else Rest))
    case StabReadLink(_, prev) =>
      var seen := s.nodes[prev].Link(d);
      s.At(t, th.(pc := if seen == end then StabSwap(a) else StabCheck3(a, prev, seen)))
    case StabCheck3(_, prev, seen) => s.At(t, th.(pc := if a == s.Cur() then StabSwapLink(a, prev, seen) else Rest))
    case StabSwapLink(_, prev, seen) =>
      if s.nodes[prev].Link(d) == seen then s.Store(prev, d, end).At(t, th.(pc := StabSwap(a)))
      else s.At(t, th.(pc := Rest))
    case StabSwap(_) =>
      if a == s.Cur() then s.Install(s.anchors[a].(status := Stable)).At(t, th.(pc := Rest))
      else s.At(t, th.(pc := Rest))
  }

  predicate StabPc(pc: Pc) {
    pc.StabCheck1? || pc.StabReadPrev? || pc.StabCheck2? || pc.StabReadLink? || pc.StabCheck3? || pc.StabSwapLink? ||
        pc.StabSwap?
  }

  // ---------------------------------------------------------------------------------------------
  // The invariant

  /** The abstract deque behind a state: the nodes in it from left to right, and every node that
      was ever published. */
  datatype Abs = Abs(chain: seq<Ptr>, pub: set<Ptr>)

  /** The i-th node from side d. */
  function Nth(q: seq<Ptr>, d: Side, i: nat): Ptr requires i < |q| {
    if d.L? then q[i] else q[|q| - 1 - i]
  }

  predicate Known(g: Abs, p: Ptr) { p == NULL || p in g.pub }

  predicate HeapOk(s: State, g: Abs) {
    && s.nodes != [] && s.anchors != []
    && (forall p :: p in g.pub ==> Alloc(s, p))
    && (forall p, d: Side :: 0 <= p < |s.nodes| ==> Known(g, s.nodes[p].Link(d)))
    && (forall i, d: Side :: 0 <= i < |s.anchors| ==> Known(g, s.anchors[i].End(d)))
    && (forall i :: 0 <= i < |s.anchors| ==> s.anchors[i].status.Push? ==>
        s.anchors[i].End(s.anchors[i].status.side) != NULL)
  }

  /** The chain is exactly what the current anchor spans: all links agree, except that during a
      push on side d the inner neighbour of the new end need not point back to it yet. */
  predicate ChainOk(s: State, g: Abs)
    requires HeapOk(s, g)
  {
    var q, a := g.chain, s.anchors[s.Cur()];
    && (forall i :: 0 <= i < |q| ==> q[i] in g.pub)
    && (forall i, j :: 0 <= i < j < |q| ==> q[i] != q[j])
    && (q == [] ==> a.left == NULL && a.right == NULL)
    && (q != [] ==> a.left == q[0] && a.right == q[|q| - 1])
    && (forall i :: 0 <= i < |q| - 1 && (i < |q| - 2 || a.status != Push(R)) ==> s.nodes[q[i]].right == q[i + 1])
    && (forall i :: 0 < i < |q| && (1 < i || a.status != Push(L)) ==> s.nodes[q[i]].left == q[i - 1])
    && (a.status.Push? ==> |q| >= 2)
    && a.putLeft + a.putRight == a.getLeft + a.getRight + |q|
  }

  predicate StabOk(s: State, g: Abs, a: nat)
    requires HeapOk(s, g)
  {
    a < |s.anchors| && s.anchors[a].status.Push?
  }

  /** The inner neighbour of the newest node while anchor a is still current. */
  predicate PrevOk(s: State, g: Abs, a: nat, prev: Ptr)
    requires HeapOk(s, g) && ChainOk(s, g) && StabOk(s, g, a)
  {
    a == s.Cur() ==> prev == Nth(g.chain, s.anchors[a].status.side, 1)
  }

  predicate JobOk(s: State, g: Abs, job: Job) {
    job.PushJob? ==> Alloc(s, job.node) && job.node !in g.pub
  }

  predicate ThreadOk(s: State, g: Abs, th: Thread)
    requires HeapOk(s, g) && ChainOk(s, g)
  {
    && JobOk(s, g, th.job)
    && match th.pc
       case Rest => true
       case LinkOwn(a) =>
         && th.job.PushJob? && a < |s.anchors|
         && s.anchors[a].status.Stable? && s.anchors[a].End(th.job.d) != NULL
       case SwapPush(a) =>
         && th.job.PushJob? && a < |s.anchors|
         && (s.anchors[a].End(th.job.d) != NULL ==>
               && s.anchors[a].status.Stable?
               && s.nodes[th.job.node].Link(th.job.d.Opp()) == s.anchors[a].End(th.job.d))
       case Recheck(a) => PopOk(s, th.job, a) && s.anchors[a].left != s.anchors[a].right
       case ReadInner(a) => PopOk(s, th.job, a) && s.anchors[a].left != s.anchors[a].right
       case SwapPop(a, inner) =>
         && PopOk(s, th.job, a) && s.anchors[a].left != s.anchors[a].right
         && (a == s.Cur() ==> |g.chain| >= 2 && inner == Nth(g.chain, th.job.side, 1))
       case SwapLast(a) => PopOk(s, th.job, a) && s.anchors[a].left == s.anchors[a].right
       case StabCheck1(a) => StabOk(s, g, a)
       case StabReadPrev(a) => StabOk(s, g, a)
       case StabCheck2(a, prev) => StabOk(s, g, a) && PrevOk(s, g, a, prev)
       case StabReadLink(a, prev) => StabOk(s, g, a) && PrevOk(s, g, a, prev) && prev in g.pub
       case StabCheck3(a, prev, seen) =>
         && StabOk(s, g, a) && PrevOk(s, g, a, prev) && prev in g.pub && Known(g, seen)
         && seen != s.anchors[a].End(s.anchors[a].status.side)
       case StabSwapLink(a, prev, seen) =>
         && StabOk(s, g, a) && PrevOk(s, g, a, prev) && prev in g.pub && Known(g, seen)
         && seen != s.anchors[a].End(s.anchors[a].status.side)
         && (a != s.Cur() ==> Missed(s, g, s.anchors[a].status.side, prev, seen))
       case StabSwap(a) =>
         StabOk(s, g, a) && (a == s.Cur() ==> Linked(s, g, s.anchors[a].status.side))
  }

  /** The anchor a popper works on: stable, or with one node, and never empty. */
  predicate PopOk(s: State, job: Job, a: nat) {
    && job.PopJob? && a < |s.anchors| && s.anchors[a].status.Stable?
    && s.anchors[a].left != NULL && s.anchors[a].right != NULL
  }

  /** The neighbour of the end on side d already points back to it. */
  predicate Linked(s: State, g: Abs, d: Side)
    requires HeapOk(s, g) && ChainOk(s, g) && |g.chain| >= 2
  {
    s.nodes[Nth(g.chain, d, 1)].Link(d) == Nth(g.chain, d, 0)
  }

  /** A pointer CAS left over from an old anchor has missed its chance for good: the pointer no
      longer holds the value it expects, nor will the push in progress put that value back. */
  predicate Missed(s: State, g: Abs, d: Side, prev: Ptr, seen: Ptr)
    requires HeapOk(s, g) && ChainOk(s, g) && prev in g.pub
  {
    && s.nodes[prev].Link(d) != seen
    && (s.anchors[s.Cur()].status == Push(d) ==> seen != s.anchors[s.Cur()].End(d))
  }

  predicate Inv(s: State, g: Abs) {
    && HeapOk(s, g) && ChainOk(s, g)
    && (forall t :: 0 <= t < |s.threads| ==> ThreadOk(s, g, s.threads[t]))
    && (forall t, u :: 0 <= t < u < |s.threads| && s.threads[t].job.PushJob? && s.threads[u].job.PushJob? ==>
          s.threads[t].job.node != s.threads[u].job.node)
  }

  /** The values in the deque, from left to right. */
  function Contents(s: State, g: Abs): seq<int>
    requires Inv(s, g)
  {
    seq(|g.chain|, i requires 0 <= i < |g.chain| => s.nodes[g.chain[i]].val)
  }

  /** The abstract deque: how an event may change the contents. */
  predicate Spec(before: seq<int>, e: Event, after: seq<int>) {
    match e
    case Silent => after == before
    case GaveUp => after == before
    case Pushed(d, v) => after == if d.L? then [v] + before else before + [v]
    case Popped(d, v) => before == if d.L? then [v] + after else after + [v]
  }


  // ---------------------------------------------------------------------------------------------
  // Every step keeps the invariant and is simulated by the abstract deque

  /** Which thread steps does not matter to what a thread may assume. */
  lemma Local(s: State, g: Abs, t: nat, th: Thread)
    requires Inv(s, g) && t < |s.threads| && ThreadOk(s, g, th)
    requires th.job == s.threads[t].job || !th.job.PushJob?
    ensures Inv(s.At(t, th), g)
  {
    var s1 := s.At(t, th);
    assert HeapOk(s1, g) && ChainOk(s1, g);
    forall u | 0 <= u < |s1.threads| ensures ThreadOk(s1, g, s1.threads[u]) {
      assert ThreadOk(s, g, if u == t then th else s.threads[u]);
    }
  }

  /** Joining up: a change of the shared memory that every thread tolerates, then thread t's move. */
  lemma Moved(s: State, g: Abs, s1: State, g1: Abs, t: nat, th: Thread)
    requires Inv(s, g) && t < |s.threads| && s1.threads == s.threads
    requires HeapOk(s1, g1) && ChainOk(s1, g1)
    requires forall u :: 0 <= u < |s.threads| && u != t ==> ThreadOk(s1, g1, s.threads[u])
    requires ThreadOk(s1, g1, th)
    requires th.job.PushJob? ==> th.job == s.threads[t].job ||
                                 forall u :: 0 <= u < |s.threads| && s.threads[u].job.PushJob? ==>
                                     s.threads[u].job.node != th.job.node
    ensures Inv(s1.At(t, th), g1)
  {
    var s2 := s1.At(t, th);
    assert HeapOk(s2, g1) && ChainOk(s2, g1);
    forall u | 0 <= u < |s2.threads| ensures ThreadOk(s2, g1, s2.threads[u]) {
      assert ThreadOk(s1, g1, if u == t then th else s.threads[u]);
    }
  }

  lemma NewNodeHeap(s: State, g: Abs, v: int)
    requires HeapOk(s, g) && ChainOk(s, g)
    ensures var s1 := s.(nodes := s.nodes + [Node(v, NULL, NULL)]); HeapOk(s1, g) && ChainOk(s1, g)
  {
    var s1 := s.(nodes := s.nodes + [Node(v, NULL, NULL)]);
    forall p, d: Side | 0 <= p < |s1.nodes| ensures Known(g, s1.nodes[p].Link(d)) {
      if p < |s.nodes| { assert Known(g, s.nodes[p].Link(d)); }
    }
    assert HeapOk(s1, g);
  }

  lemma NewNodeKeeps(s: State, g: Abs, v: int, th: Thread)
    requires HeapOk(s, g) && ChainOk(s, g) && ThreadOk(s, g, th)
    requires var s1 := s.(nodes := s.nodes + [Node(v, NULL, NULL)]); HeapOk(s1, g) && ChainOk(s1, g)
    ensures ThreadOk(s.(nodes := s.nodes + [Node(v, NULL, NULL)]), g, th)
  {
  }

  lemma CallPushOk(s: State, g: Abs, t: nat, d: Side, v: int)
    requires Inv(s, g) && Enabled(s, t, CallPush(d, v))
    ensures Inv(Step(s, t, CallPush(d, v)).0, g)
    ensures Contents(Step(s, t, CallPush(d, v)).0, g) == Contents(s, g)
  {
    var s1 := s.(nodes := s.nodes + [Node(v, NULL, NULL)]);
    NewNodeHeap(s, g, v);
    forall u | 0 <= u < |s.threads| && u != t ensures ThreadOk(s1, g, s.threads[u]) {
      NewNodeKeeps(s, g, v, s.threads[u]);
    }
    forall u | 0 <= u < |s.threads| && s.threads[u].job.PushJob? ensures s.threads[u].job.node != |s.nodes| {
      assert ThreadOk(s, g, s.threads[u]);
    }
    Moved(s, g, s1, g, t, Thread(PushJob(d, |s.nodes|), Rest));
  }

  /** A store into a node nobody else can see yet. */
  lemma LinkOwnHeap(s: State, g: Abs, node: Ptr, d: Side, v: Ptr)
    requires HeapOk(s, g) && ChainOk(s, g) && Alloc(s, node) && node !in g.pub && Known(g, v)
    ensures HeapOk(s.Store(node, d, v), g) && ChainOk(s.Store(node, d, v), g)
  {
    var s1 := s.Store(node, d, v);
    assert forall p :: 0 <= p < |s.nodes| && p != node ==> s1.nodes[p] == s.nodes[p];
    forall p, e: Side | 0 <= p < |s1.nodes| ensures Known(g, s1.nodes[p].Link(e)) {
      assert Known(g, s.nodes[p].Link(e));
    }
    assert HeapOk(s1, g);
  }

  lemma LinkOwnKeeps(s: State, g: Abs, node: Ptr, d: Side, v: Ptr, th: Thread)
    requires HeapOk(s, g) && ChainOk(s, g) && Alloc(s, node) && node !in g.pub
    requires ThreadOk(s, g, th) && (th.job.PushJob? ==> th.job.node != node)
    requires HeapOk(s.Store(node, d, v), g) && ChainOk(s.Store(node, d, v), g)
    ensures ThreadOk(s.Store(node, d, v), g, th)
  {
    var s1 := s.Store(node, d, v);
    assert forall p :: 0 <= p < |s.nodes| && p != node ==> s1.nodes[p] == s.nodes[p];
  }

  lemma LinkOwnOk(s: State, g: Abs, t: nat)
    requires Inv(s, g) && Enabled(s, t, Go) && s.threads[t].pc.LinkOwn?
    ensures Inv(Step(s, t, Go).0, g)
    ensures Contents(Step(s, t, Go).0, g) == Contents(s, g)
  {
    var th := s.threads[t];
    assert ThreadOk(s, g, th);
    var end := s.anchors[th.pc.a].End(th.job.d);
    LinkOwnHeap(s, g, th.job.node, th.job.d.Opp(), end);
    var s1 := s.Store(th.job.node, th.job.d.Opp(), end);
    forall u | 0 <= u < |s.threads| && u != t ensures ThreadOk(s1, g, s.threads[u]) {
      LinkOwnKeeps(s, g, th.job.node, th.job.d.Opp(), end, s.threads[u]);
    }
    Moved(s, g, s1, g, t, th.(pc := SwapPush(th.pc.a)));
  }

  /** A stabilizer that lost its anchor never changes a pointer: its CAS always fails. */
  lemma StaleSwapFails(s: State, g: Abs, t: nat)
    requires Inv(s, g) && Enabled(s, t, Go) && s.threads[t].pc.StabSwapLink?
    requires s.threads[t].pc.a != s.Cur()
    ensures Step(s, t, Go).0 == s.At(t, s.threads[t].(pc := Rest))
  {
    assert ThreadOk(s, g, s.threads[t]);
  }

  /** The pointer CAS of a stabilizer whose anchor is current repairs the one wrong link. */
  lemma RelinkHeap(s: State, g: Abs, d: Side)
    requires HeapOk(s, g) && ChainOk(s, g) && s.anchors[s.Cur()].status == Push(d)
    ensures var s1 := s.Store(Nth(g.chain, d, 1), d, s.anchors[s.Cur()].End(d));
            HeapOk(s1, g) && ChainOk(s1, g) && Linked(s1, g, d)
  {
    var prev, end := Nth(g.chain, d, 1), s.anchors[s.Cur()].End(d);
    var s1 := s.Store(prev, d, end);
    assert forall p :: 0 <= p < |s.nodes| && p != prev ==> s1.nodes[p] == s.nodes[p];
    forall p, e: Side | 0 <= p < |s1.nodes| ensures Known(g, s1.nodes[p].Link(e)) {
      assert Known(g, s.nodes[p].Link(e)) && Known(g, s.anchors[s.Cur()].End(d));
    }
    assert HeapOk(s1, g);
  }

  lemma RelinkKeeps(s: State, g: Abs, d: Side, th: Thread)
    requires HeapOk(s, g) && ChainOk(s, g) && s.anchors[s.Cur()].status == Push(d) && ThreadOk(s, g, th)
    requires var s1 := s.Store(Nth(g.chain, d, 1), d, s.anchors[s.Cur()].End(d));
             HeapOk(s1, g) && ChainOk(s1, g) && Linked(s1, g, d)
    ensures ThreadOk(s.Store(Nth(g.chain, d, 1), d, s.anchors[s.Cur()].End(d)), g, th)
  {
    var prev := Nth(g.chain, d, 1);
    var s1 := s.Store(prev, d, s.anchors[s.Cur()].End(d));
    assert forall p :: 0 <= p < |s.nodes| && p != prev ==> s1.nodes[p] == s.nodes[p];
    if th.pc.StabSwapLink? && th.pc.a != s.Cur() {
      assert Missed(s, g, s.anchors[th.pc.a].status.side, th.pc.prev, th.pc.seen);
    }
  }

  /** The stabilizer of the current anchor makes the link right. */
  lemma RelinkOk(s: State, g: Abs, t: nat, d: Side)
    requires Inv(s, g) && t < |s.threads| && s.threads[t].pc.StabSwapLink? && s.threads[t].pc.a == s.Cur()
    requires s.anchors[s.Cur()].status == Push(d) && s.threads[t].pc.prev == Nth(g.chain, d, 1)
    ensures var s1 := s.Store(s.threads[t].pc.prev, d, s.anchors[s.Cur()].End(d));
            Inv(s1.At(t, s.threads[t].(pc := StabSwap(s.Cur()))), g)
  {
    var th := s.threads[t];
    assert ThreadOk(s, g, th);
    RelinkHeap(s, g, d);
    var s1 := s.Store(th.pc.prev, d, s.anchors[s.Cur()].End(d));
    forall u | 0 <= u < |s.threads| && u != t ensures ThreadOk(s1, g, s.threads[u]) {
      RelinkKeeps(s, g, d, s.threads[u]);
    }
    Moved(s, g, s1, g, t, th.(pc := StabSwap(s.Cur())));
  }

  lemma StabSwapLinkOk(s: State, g: Abs, t: nat)
    requires Inv(s, g) && Enabled(s, t, Go) && s.threads[t].pc.StabSwapLink?
    ensures Inv(Step(s, t, Go).0, g)
    ensures Contents(Step(s, t, Go).0, g) == Contents(s, g)
  {
    var th := s.threads[t];
    assert ThreadOk(s, g, th);
    var StabSwapLink(a, prev, seen) := th.pc;
    var d := s.anchors[a].status.side;
    if s.nodes[prev].Link(d) == seen {
      assert a == s.Cur();
      RelinkOk(s, g, t, d);
    } else {
      Local(s, g, t, th.(pc := Rest));
    }
  }

  function Extend(g: Abs, d: Side, node: Ptr): Abs {
    Abs(if d.L? then [node] + g.chain else g.chain + [node], g.pub + {node})
  }

  function Shrink(g: Abs, d: Side): Abs requires g.chain != [] {
    Abs(if d.L? then g.chain[1..] else g.chain[..|g.chain| - 1], g.pub)
  }

  /** Installing an anchor that only mentions published nodes keeps the heap in order. */
  lemma InstallHeap(s: State, g: Abs, next: Anchor, pub: set<Ptr>)
    requires HeapOk(s, g) && g.pub <= pub && forall p :: p in pub ==> Alloc(s, p)
    requires forall d: Side :: Known(Abs(g.chain, pub), next.End(d))
    requires next.status.Push? ==> next.End(next.status.side) != NULL
    ensures forall q :: HeapOk(s.Install(next), Abs(q, pub))
  {
    forall q ensures HeapOk(s.Install(next), Abs(q, pub)) {
      var s1, g1 := s.Install(next), Abs(q, pub);
      forall p, d: Side | 0 <= p < |s1.nodes| ensures Known(g1, s1.nodes[p].Link(d)) {
        assert Known(g, s.nodes[p].Link(d));
      }
      forall i, d: Side | 0 <= i < |s1.anchors| ensures Known(g1, s1.anchors[i].End(d)) {
        if i < |s.anchors| { assert Known(g, s.anchors[i].End(d)); }
      }
    }
  }

  lemma PublishChain(s: State, g: Abs, d: Side, node: Ptr)
    requires HeapOk(s, g) && ChainOk(s, g) && Alloc(s, node) && node !in g.pub
    requires g.chain == [] || s.anchors[s.Cur()].status.Stable?
    requires g.chain != [] ==> s.nodes[node].Link(d.Opp()) == s.anchors[s.Cur()].End(d)
    ensures var s1, g1 := s.Install(PushAnchor(s.anchors[s.Cur()], d, node)), Extend(g, d, node);
            HeapOk(s1, g1) && ChainOk(s1, g1)
  {
    var last := s.anchors[s.Cur()];
    var next := PushAnchor(last, d, node);
    var s1, g1 := s.Install(next), Extend(g, d, node);
    assert Known(g, last.End(L)) && Known(g, last.End(R));
    InstallHeap(s, g, next, g1.pub);
    if d.L? {
      assert g1.chain[0] == node && forall i :: 0 < i < |g1.chain| ==> g1.chain[i] == g.chain[i - 1];
    } else {
      assert g1.chain[|g.chain|] == node && forall i :: 0 <= i < |g.chain| ==> g1.chain[i] == g.chain[i];
    }
  }

  /** What the other threads know survives the publication. */
  lemma PublishKeeps(s: State, g: Abs, d: Side, node: Ptr, th: Thread)
    requires Inv(s, g) && Alloc(s, node) && node !in g.pub && ThreadOk(s, g, th)
    requires th.job.PushJob? ==> th.job.node != node
    requires g.chain == [] || s.anchors[s.Cur()].status.Stable?
    requires var s1, g1 := s.Install(PushAnchor(s.anchors[s.Cur()], d, node)), Extend(g, d, node);
             HeapOk(s1, g1) && ChainOk(s1, g1)
    ensures ThreadOk(s.Install(PushAnchor(s.anchors[s.Cur()], d, node)), Extend(g, d, node), th)
  {
    var s1, g1 := s.Install(PushAnchor(s.anchors[s.Cur()], d, node)), Extend(g, d, node);
    if th.pc.StabSwapLink? {
      var a := th.pc.a;
      assert a != s.Cur();
      assert Missed(s, g, s.anchors[a].status.side, th.pc.prev, th.pc.seen);
      assert th.pc.seen != node;
      assert Missed(s1, g1, s1.anchors[a].status.side, th.pc.prev, th.pc.seen);
    }
  }

  lemma PublishContents(s: State, g: Abs, t: nat, d: Side, node: Ptr, th: Thread)
    requires Inv(s, g) && Alloc(s, node) && t < |s.threads|
    requires Inv(s.Install(PushAnchor(s.anchors[s.Cur()], d, node)).At(t, th), Extend(g, d, node))
    ensures Spec(Contents(s, g), Pushed(d, s.nodes[node].val),
                 Contents(s.Install(PushAnchor(s.anchors[s.Cur()], d, node)).At(t, th), Extend(g, d, node)))
  {
  }

  /** Publishing a node on side d. */
  lemma PublishOk(s: State, g: Abs, t: nat)
    requires Inv(s, g) && Enabled(s, t, Go) && s.threads[t].pc.SwapPush?
    requires s.threads[t].pc.a == s.Cur()
    ensures var g1 := Extend(g, s.threads[t].job.d, s.threads[t].job.node);
            var (s1, e) := Step(s, t, Go);
            Inv(s1, g1) && Spec(Contents(s, g), e, Contents(s1, g1))
  {
    var th := s.threads[t];
    assert ThreadOk(s, g, th);
    var d, node := th.job.d, th.job.node;
    assert s.anchors[s.Cur()].End(d) == NULL <==> g.chain == [];
    PublishChain(s, g, d, node);
    var s1, g1 := s.Install(PushAnchor(s.anchors[s.Cur()], d, node)), Extend(g, d, node);
    forall u | 0 <= u < |s.threads| && u != t ensures ThreadOk(s1, g1, s.threads[u]) {
      PublishKeeps(s, g, d, node, s.threads[u]);
    }
    var th1 := Thread(NoJob, if g.chain == [] then Rest else StabCheck1(|s.anchors|));
    Moved(s, g, s1, g1, t, th1);
    PublishContents(s, g, t, d, node, th1);
  }

  /** The anchor a popper installs over the current one, given the new end. */
  function PopAnchor(last: Anchor, d: Side, inner: Ptr): Anchor {
    if inner == NULL then last.CountGet(d).SetEnd(L, NULL).SetEnd(R, NULL)
    else last.CountGet(d).SetEnd(d, inner)
  }

  lemma PopChain(s: State, g: Abs, d: Side, inner: Ptr)
    requires HeapOk(s, g) && ChainOk(s, g)
    requires g.chain != [] && s.anchors[s.Cur()].status.Stable?
    requires inner == if |g.chain| == 1 then NULL else Nth(g.chain, d, 1)
    ensures var s1, g1 := s.Install(PopAnchor(s.anchors[s.Cur()], d, inner)), Shrink(g, d);
            HeapOk(s1, g1) && ChainOk(s1, g1)
  {
    var last := s.anchors[s.Cur()];
    var next := PopAnchor(last, d, inner);
    var s1, g1 := s.Install(next), Shrink(g, d);
    assert Known(g, last.End(L)) && Known(g, last.End(R));
    InstallHeap(s, g, next, g1.pub);
    if d.L? {
      assert forall i :: 0 <= i < |g1.chain| ==> g1.chain[i] == g.chain[i + 1];
    } else {
      assert forall i :: 0 <= i < |g1.chain| ==> g1.chain[i] == g.chain[i];
    }
  }

  lemma PopKeeps(s: State, g: Abs, d: Side, inner: Ptr, th: Thread)
    requires Inv(s, g) && ThreadOk(s, g, th)
    requires g.chain != [] && s.anchors[s.Cur()].status.Stable?
    requires var s1, g1 := s.Install(PopAnchor(s.anchors[s.Cur()], d, inner)), Shrink(g, d);
             HeapOk(s1, g1) && ChainOk(s1, g1)
    ensures ThreadOk(s.Install(PopAnchor(s.anchors[s.Cur()], d, inner)), Shrink(g, d), th)
  {
  }

  lemma PopContents(s: State, g: Abs, t: nat, d: Side, inner: Ptr, th: Thread)
    requires Inv(s, g) && t < |s.threads| && g.chain != []
    requires Inv(s.Install(PopAnchor(s.anchors[s.Cur()], d, inner)).At(t, th), Shrink(g, d))
    ensures Spec(Contents(s, g), Popped(d, s.nodes[s.anchors[s.Cur()].End(d)].val),
                 Contents(s.Install(PopAnchor(s.anchors[s.Cur()], d, inner)).At(t, th), Shrink(g, d)))
  {
    var before := Contents(s, g);
    var after := Contents(s.Install(PopAnchor(s.anchors[s.Cur()], d, inner)).At(t, th), Shrink(g, d));
    assert after == if d.L? then before[1..] else before[..|before| - 1];
    assert before == if d.L? then [before[0]] + before[1..] else before[..|before| - 1] + [before[|before| - 1]];
  }

  lemma PopOkStep(s: State, g: Abs, t: nat)
    requires Inv(s, g) && Enabled(s, t, Go)
    requires s.threads[t].pc.SwapPop? || s.threads[t].pc.SwapLast?
    requires s.threads[t].pc.a == s.Cur()
    ensures g.chain != []
    ensures var (s1, e) := Step(s, t, Go);
            Inv(s1, Shrink(g, s.threads[t].job.side)) &&
                Spec(Contents(s, g), e, Contents(s1, Shrink(g, s.threads[t].job.side)))
  {
    assert ThreadOk(s, g, s.threads[t]);
    var d := s.threads[t].job.side;
    var last := s.anchors[s.Cur()];
    assert g.chain != [];
    var inner := if s.threads[t].pc.SwapPop? then s.threads[t].pc.inner else NULL;
    assert s.threads[t].pc.SwapPop? ==> |g.chain| >= 2 && Nth(g.chain, d, 1) in g.pub;
    assert s.threads[t].pc.SwapLast? ==> |g.chain| == 1;
    PopChain(s, g, d, inner);
    var s1, g1 := s.Install(PopAnchor(last, d, inner)), Shrink(g, d);
    forall u | 0 <= u < |s.threads| && u != t ensures ThreadOk(s1, g1, s.threads[u]) {
      PopKeeps(s, g, d, inner, s.threads[u]);
    }
    Moved(s, g, s1, g1, t, Thread(NoJob, Rest));
    PopContents(s, g, t, d, inner, Thread(NoJob, Rest));
  }

  lemma MadeStable(s: State, g: Abs)
    requires HeapOk(s, g) && ChainOk(s, g) && s.anchors[s.Cur()].status.Push?
    requires Linked(s, g, s.anchors[s.Cur()].status.side)
    ensures var s1 := s.Install(s.anchors[s.Cur()].(status := Stable)); HeapOk(s1, g) && ChainOk(s1, g)
  {
    var s1 := s.Install(s.anchors[s.Cur()].(status := Stable));
    forall i, d: Side | 0 <= i < |s1.anchors| ensures Known(g, s1.anchors[i].End(d)) {
      assert Known(g, s.anchors[if i < |s.anchors| then i else s.Cur()].End(d));
    }
    assert HeapOk(s1, g);
  }

  lemma StableKeeps(s: State, g: Abs, th: Thread)
    requires HeapOk(s, g) && ChainOk(s, g) && s.anchors[s.Cur()].status.Push? && ThreadOk(s, g, th)
    requires var s1 := s.Install(s.anchors[s.Cur()].(status := Stable)); HeapOk(s1, g) && ChainOk(s1, g)
    ensures ThreadOk(s.Install(s.anchors[s.Cur()].(status := Stable)), g, th)
  {
  }

  lemma StabSwapOk(s: State, g: Abs, t: nat)
    requires Inv(s, g) && Enabled(s, t, Go) && s.threads[t].pc.StabSwap?
    ensures Inv(Step(s, t, Go).0, g)
    ensures Contents(Step(s, t, Go).0, g) == Contents(s, g)
  {
    var th := s.threads[t];
    assert ThreadOk(s, g, th);
    if th.pc.a == s.Cur() {
      var s1 := s.Install(s.anchors[s.Cur()].(status := Stable));
      assert Linked(s, g, s.anchors[s.Cur()].status.side);
      MadeStable(s, g);
      forall u | 0 <= u < |s.threads| && u != t ensures ThreadOk(s1, g, s.threads[u]) {
        StableKeeps(s, g, s.threads[u]);
      }
      Moved(s, g, s1, g, t, th.(pc := Rest));
    } else {
      Local(s, g, t, th.(pc := Rest));
    }
  }

  ghost predicate OnlyMoves(s: State, g: Abs, t: nat, act: Action)
    requires Inv(s, g) && Enabled(s, t, act)
  {
    var (s1, e) := Step(s, t, act);
    (e.Silent? || e.GaveUp?) && Inv(s1, g) && Contents(s1, g) == Contents(s, g)
  }

  lemma ReadStabOk(s: State, g: Abs, t: nat)
    requires Inv(s, g) && Enabled(s, t, Go)
    requires var pc := s.threads[t].pc;
             pc.StabCheck1? || pc.StabReadPrev? || pc.StabCheck2? || pc.StabReadLink? || pc.StabCheck3?
    ensures OnlyMoves(s, g, t, Go)
  {
    assert ThreadOk(s, g, s.threads[t]);
    Local(s, g, t, Step(s, t, Go).0.threads[t]);
  }

  lemma ReadPopOk(s: State, g: Abs, t: nat)
    requires Inv(s, g) && Enabled(s, t, Go)
    requires var pc := s.threads[t].pc;
             || pc.Rest? || pc.Recheck? || pc.ReadInner?
             || ((pc.SwapPush? || pc.SwapPop? || pc.SwapLast?) && pc.a != s.Cur())
    ensures OnlyMoves(s, g, t, Go)
  {
    assert ThreadOk(s, g, s.threads[t]);
    Local(s, g, t, Step(s, t, Go).0.threads[t]);
  }

  lemma CallOk(s: State, g: Abs, t: nat, act: Action)
    requires Inv(s, g) && Enabled(s, t, act) && (act.CallPop? || act.GiveUp?)
    ensures OnlyMoves(s, g, t, act)
  {
    assert ThreadOk(s, g, s.threads[t]);
    Local(s, g, t, Step(s, t, act).0.threads[t]);
  }

  /** Refinement: every step is a step of the abstract deque, which changes only at anchor CASes. */
  lemma StepSimulated(s: State, g: Abs, t: nat, act: Action) returns (g1: Abs)
    requires Inv(s, g) && Enabled(s, t, act)
    ensures Inv(Step(s, t, act).0, g1)
    ensures Spec(Contents(s, g), Step(s, t, act).1, Contents(Step(s, t, act).0, g1))
    ensures Step(s, t, act).0.anchors == s.anchors ==> g1 == g
  {
    var pc := s.threads[t].pc;
    g1 := g;
    if act.CallPush? {
      CallPushOk(s, g, t, act.d, act.v);
    } else if act.Go? && pc.LinkOwn? {
      LinkOwnOk(s, g, t);
    } else if act.Go? && pc.StabSwapLink? {
      StabSwapLinkOk(s, g, t);
    } else if act.Go? && pc.StabSwap? {
      StabSwapOk(s, g, t);
    } else if act.Go? && pc.SwapPush? && pc.a == s.Cur() {
      PublishOk(s, g, t);
      g1 := Extend(g, s.threads[t].job.d, s.threads[t].job.node);
    } else if act.Go? && (pc.SwapPop? || pc.SwapLast?) && pc.a == s.Cur() {
      PopOkStep(s, g, t);
      g1 := Shrink(g, s.threads[t].job.side);
    } else if !act.Go? {
      CallOk(s, g, t, act);
    } else if StabPc(pc) {
      ReadStabOk(s, g, t);
    } else {
      ReadPopOk(s, g, t);
    }
  }

  /** No thread ever follows NULL or waits for anything: between calls it may call, otherwise it
      can always take its next step. */
  lemma NeverStuck(s: State, g: Abs, t: nat)
    requires Inv(s, g) && t < |s.threads|
    ensures s.threads[t] == Thread(NoJob, Rest) || Enabled(s, t, Go) || Enabled(s, t, GiveUp)
    ensures !s.threads[t].pc.Rest? ==> Enabled(s, t, Go)
  {
    assert ThreadOk(s, g, s.threads[t]);
  }

  // ---------------------------------------------------------------------------------------------
  // Whole runs

  ghost predicate Next(s: State, e: Event, s1: State) {
    exists t, act :: Enabled(s, t, act) && Step(s, t, act) == (s1, e)
  }

  ghost predicate IsRun(n: nat, run: seq<State>, events: seq<Event>) {
    && |run| == |events| + 1 && run[0] == Init(n)
    && forall i :: 0 <= i < |events| ==> Next(run[i], events[i], run[i + 1])
  }

  /** The same with the moves the run is made of. */
  ghost predicate Makes(s: State, m: Move<Action>, s1: State, e: Event) {
    Enabled(s, m.t, m.act) && Step(s, m.t, m.act) == (s1, e)
  }

  ghost predicate IsRunOf(n: nat, run: seq<State>, moves: seq<Move<Action>>, events: seq<Event>) {
    Chain(run, moves, events, Makes) && run[0] == Init(n)
  }

  ghost predicate IsSpecRun(qs: seq<seq<int>>, events: seq<Event>) {
    && |qs| == |events| + 1 && qs[0] == []
    && forall i :: 0 <= i < |events| ==> Spec(qs[i], events[i], qs[i + 1])
  }

  lemma RunPrefix(n: nat, run: seq<State>, events: seq<Event>)
    requires IsRun(n, run, events) && events != []
    ensures var k := |events| - 1;
            IsRun(n, run[..k + 1], events[..k]) && Next(run[k], events[k], run[k + 1])
  {
    var k := |events| - 1;
    forall i | 0 <= i < k ensures Next(run[..k + 1][i], events[..k][i], run[..k + 1][i + 1]) {
      assert Next(run[i], events[i], run[i + 1]);
    }
  }

  lemma SpecRunStep(qs: seq<seq<int>>, events: seq<Event>, q: seq<int>)
    requires events != [] && IsSpecRun(qs, events[..|events| - 1])
    requires Spec(qs[|events| - 1], events[|events| - 1], q)
    ensures IsSpecRun(qs + [q], events)
  {
    var k := |events| - 1;
    forall i | 0 <= i < |events| ensures Spec((qs + [q])[i], events[i], (qs + [q])[i + 1]) {
      if i < k { assert Spec(qs[i], events[..k][i], qs[i + 1]); }
    }
  }

  /** Every interleaving of pushes, pops and helpers is a run of the abstract deque, and every
      state on it satisfies the invariant for that deque. */
  lemma {:induction false} RunRefines(n: nat, run: seq<State>, events: seq<Event>) returns (qs: seq<seq<int>>, g: Abs)
    requires IsRun(n, run, events)
    ensures IsSpecRun(qs, events)
    ensures Inv(run[|events|], g) && Contents(run[|events|], g) == qs[|events|]
    decreases |events|
  {
    if events == [] {
      g := Abs([], {});
      qs := [[]];
    } else {
      var k := |events| - 1;
      RunPrefix(n, run, events);
      qs, g := RunRefines(n, run[..k + 1], events[..k]);
      var t, act :| Enabled(run[k], t, act) && Step(run[k], t, act) == (run[k + 1], events[k]);
      g := StepSimulated(run[k], g, t, act);
      SpecRunStep(qs, events, Contents(run[k + 1], g));
      qs := qs + [Contents(run[k + 1], g)];
    }
  }

  function PushedIn(events: seq<Event>): multiset<int> {
    if events == [] then multiset{}
    else
      var e := events[|events| - 1];
      PushedIn(events[..|events| - 1]) + if e.Pushed? then multiset{e.v} else multiset{}
  }

  function PoppedIn(events: seq<Event>): multiset<int> {
    if events == [] then multiset{}
    else
      var e := events[|events| - 1];
      PoppedIn(events[..|events| - 1]) + if e.Popped? then multiset{e.w} else multiset{}
  }

  /** No item is lost, duplicated or invented: what was pushed is what was popped and what is left. */
  lemma {:induction false} ItemsConserved(qs: seq<seq<int>>, events: seq<Event>)
    requires IsSpecRun(qs, events)
    ensures PushedIn(events) == PoppedIn(events) + multiset(qs[|events|])
    decreases |events|
  {
    if events != [] {
      var k := |events| - 1;
      assert forall i :: 0 <= i < k ==> Spec(qs[..k + 1][i], events[..k][i], qs[..k + 1][i + 1]);
      ItemsConserved(qs[..k + 1], events[..k]);
      assert qs[..k + 1][k] == qs[k];
      StepConserved(qs[k], events[k], qs[k + 1]);
    }
  }

  lemma StepConserved(before: seq<int>, e: Event, after: seq<int>)
    requires Spec(before, e, after)
    ensures multiset(before) + (if e.Pushed? then multiset{e.v} else multiset{}) ==
            multiset(after) + (if e.Popped? then multiset{e.w} else multiset{})
  {
  }
}
