/** The hierarchical ticket lock at access level.  The thread that finds no local ticket left takes a
    global one for its whole socket; local tickets then pass the lock down inside the socket.  Any
    number of sockets, and at most TICKETS + 1 threads on each. */
module HierLock {
  import opened Relaxation

  const TICKETS: nat := 128   // NB_TICKETS_LOCAL

  /** Each program counter names the access that comes next. */
  datatype Pc =
    | Idle
    | Grab                       // decrement and fetch the local nxt
    | WaitLocal(ticket: nat)     // spin until the local cur is the ticket
    | WaitTurn                   // spin until the local cur is TICKETS
    | Refill                     // store TICKETS into the local nxt
    | Draw                       // fetch and increment the global nxt
    | WaitGlobal(number: nat)    // spin until the global cur is the number
    | Critical
    | ReadCur                    // release: read the local cur
    | Close(seen: int)           // CAS the local nxt from seen to 0
    | StoreFull                  // store TICKETS into the local cur
    | ReadGlobal                 // global cur++, its read
    | StoreGlobal(next: nat)     // global cur++, its store
    | PassOn(from: int)          // store from - 1 into the local cur

  datatype Local = Local(nxt: int, cur: int)

  /** node[t] is the socket of thread t; handovers counts the local handovers since the global cur
      last moved, and is only there to be talked about. */
  datatype State = State(nxt: nat, cur: nat, locals: seq<Local>, node: seq<nat>, pcs: seq<Pc>, handovers: nat) {
    function Goto(t: nat, pc: Pc): State requires t < |pcs| { this.(pcs := pcs[t := pc]) }
    function Own(t: nat): Local requires t < |node| && node[t] < |locals| { locals[node[t]] }
    function SetOwn(t: nat, l: Local): State requires t < |node| && node[t] < |locals| {
      this.(locals := locals[node[t] := l])
    }
  }

  predicate Fits(s: State, t: nat) {
    t < |s.pcs| == |s.node| && s.node[t] < |s.locals|
  }

  /** What thread t does next; a spin that fails leaves everything as it is. */
  function Step(s: State, t: nat): State
    requires Fits(s, t)
  {
    var l := s.Own(t);
    match s.pcs[t]
    case Idle => s.Goto(t, Grab)
    case Grab =>
      var got := l.nxt - 1;
      s.SetOwn(t, l.(nxt := got)).Goto(t, if got < -1 then Grab else if got >= 0 then WaitLocal(got) else WaitTurn)
    case WaitLocal(k) => if l.cur == k then s.Goto(t, Critical) else s
    case WaitTurn => if l.cur == TICKETS then s.Goto(t, Refill) else s
    case Refill => s.SetOwn(t, l.(nxt := TICKETS)).Goto(t, Draw)
    case Draw => s.(nxt := s.nxt + 1).Goto(t, WaitGlobal(s.nxt))
    case WaitGlobal(g) => if s.cur == g then s.Goto(t, Critical) else s
    case Critical => s.Goto(t, ReadCur)
    case ReadCur => s.Goto(t, Close(l.cur))
    case Close(c) =>
      var closed := if l.nxt == c then s.SetOwn(t, l.(nxt := 0)) else s;
      closed.Goto(t, if c == 0 || c == l.nxt then StoreFull else PassOn(c))
    case StoreFull => s.SetOwn(t, l.(cur := TICKETS)).Goto(t, ReadGlobal)
    case ReadGlobal => s.Goto(t, StoreGlobal(s.cur + 1))
    case StoreGlobal(v) => s.(cur := v, handovers := 0).Goto(t, Idle)
    case PassOn(c) => s.SetOwn(t, l.(cur := c - 1)).(handovers := s.handovers + 1).Goto(t, Idle)
  }

  function Init(sockets: nat, node: seq<nat>): State {
    State(0, 0, seq(sockets, _ => Local(0, TICKETS)), node, seq(|node|, _ => Idle), 0)
  }

  /** The threads of socket k. */
  function Crew(s: State, k: nat): set<int> {
    set t: int | 0 <= t < |s.node| && s.node[t] == k
  }

  ghost predicate Placement(s: State) {
    && |s.pcs| == |s.node|
    && (forall t :: 0 <= t < |s.node| ==> s.node[t] < |s.locals|)
    && (forall k :: 0 <= k < |s.locals| ==> |Crew(s, k)| <= TICKETS + 1)
  }

  /** Inside lock/release from winning the lock to giving it away. */
  predicate InHands(pc: Pc) {
    pc.Critical? || pc.ReadCur? || pc.Close? || pc.StoreFull? || pc.ReadGlobal? || pc.StoreGlobal? || pc.PassOn?
  }

  /** The lock is thread t's: it has it in hand, or its spin is about to succeed. */
  predicate Holds(s: State, t: nat) requires Fits(s, t) {
    match s.pcs[t]
    case WaitLocal(k) => s.Own(t).cur == k
    case WaitGlobal(g) => s.cur == g
    case pc => InHands(pc)
  }

  /** Thread t is the one its socket's open round of local tickets currently serves. */
  predicate Leads(s: State, t: nat) requires Fits(s, t) {
    match s.pcs[t]
    case WaitLocal(k) => s.Own(t).cur == k
    case pc => pc.Draw? || pc.WaitGlobal? || pc.Critical? || pc.ReadCur? || pc.Close? || pc.PassOn?
  }

  /** Who holds the lock, who leads each socket's open round and who is to open the next one (-1:
      nobody), who took each local ticket of the round, and who drew each global number. */
  datatype Abs = Abs(owner: int, lead: seq<int>, turner: seq<int>, taker: seq<seq<int>>, drawer: seq<int>)

  ghost predicate GlobalOk(s: State, g: Abs) {
    && s.cur <= s.nxt == |g.drawer|
    && (g.owner == -1 <==> s.cur == s.nxt)
    && -1 <= g.owner < |s.pcs|
    && (forall n {:trigger Drew(s, g.drawer[n], n)} :: s.cur < n < s.nxt ==> Drew(s, g.drawer[n], n))
    && (s.cur == s.nxt ==> s.handovers == 0)
    && s.handovers <= TICKETS
  }

  ghost predicate Drew(s: State, u: int, n: nat) {
    0 <= u < |s.pcs| && s.pcs[u] == WaitGlobal(n)
  }

  /** The open round of socket k: the local tickets from nxt up to below cur are taken, each by the
      thread waiting on it. */
  ghost predicate RoundOk(s: State, g: Abs, k: nat)
    requires |g.lead| == |g.taker| == |g.turner| == |s.locals| && k < |s.locals|
  {
    var l := s.locals[k];
    && |g.taker[k]| == TICKETS && -1 <= g.lead[k] < |s.pcs|
    && (g.lead[k] != -1 ==> Fits(s, g.lead[k]) && s.node[g.lead[k]] == k)
    && 0 <= l.cur <= TICKETS
    && (g.lead[k] == -1 ==> l.nxt <= 0)
    && (g.lead[k] != -1 ==>
         && l.nxt <= l.cur
         && forall i {:trigger Waits(s, g.taker[k][i], k, i)} :: 0 <= i < l.cur && l.nxt <= i ==>
              Waits(s, g.taker[k][i], k, i))
  }

  ghost predicate Waits(s: State, u: int, k: nat, i: nat) {
    0 <= u < |s.pcs| == |s.node| && s.node[u] == k && s.pcs[u] == WaitLocal(i)
  }

  ghost predicate ThreadOk(s: State, g: Abs, t: nat)
    requires Fits(s, t) && |g.lead| == |g.taker| == |g.turner| == |s.locals|
  {
    var k, l := s.node[t], s.Own(t);
    && (Holds(s, t) <==> g.owner == t)
    && (Leads(s, t) <==> g.lead[k] == t) && (TakesTurn(s.pcs[t]) <==> g.turner[k] == t)
    && match s.pcs[t]
       case WaitLocal(i) => g.lead[k] != -1 && l.nxt <= i <= l.cur && i < TICKETS && |g.taker[k]| == TICKETS &&
           g.taker[k][i] == t && (l.cur == i ==> s.handovers == TICKETS - l.cur)
       case Refill => g.lead[k] == -1 && l.cur == TICKETS
       case Draw => l.cur == TICKETS
       case WaitGlobal(n) => l.cur == TICKETS && s.cur <= n < |g.drawer| && g.drawer[n] == t &&
           (n == s.cur ==> s.handovers == 0)
       case Critical => s.handovers == TICKETS - l.cur
       case ReadCur => s.handovers == TICKETS - l.cur
       case Close(c) => c == l.cur && s.handovers == TICKETS - l.cur
       case PassOn(c) => c == l.cur && c > 0 && l.nxt < c && s.handovers == TICKETS - l.cur
       case StoreGlobal(v) => v == s.cur + 1
       case _ => true
  }

  predicate TakesTurn(pc: Pc) { pc.WaitTurn? || pc.Refill? }

  /** The local tickets are used up exactly while one thread of the socket is to open the next round. */
  ghost predicate TurnOk(s: State, g: Abs, k: nat) requires |g.turner| == |s.locals| && k < |s.locals| {
    && -1 <= g.turner[k] < |s.pcs| && (s.locals[k].nxt < 0 <==> g.turner[k] != -1)
    && (g.turner[k] != -1 ==> Fits(s, g.turner[k]) && s.node[g.turner[k]] == k)
  }

  /** Cur of a socket without an open round is TICKETS, unless its releaser has yet to say so. */
  ghost predicate ClosedOk(s: State, g: Abs, k: nat) requires |g.lead| == |s.locals| && k < |s.locals| {
    g.lead[k] == -1 && s.locals[k].cur != TICKETS ==>
         g.owner != -1 && 0 <= g.owner < |s.pcs| == |s.node| && s.node[g.owner] == k && s.pcs[g.owner].StoreFull?
  }

  ghost predicate Inv(s: State, g: Abs) {
    && Placement(s) && |g.lead| == |g.taker| == |g.turner| == |s.locals| && GlobalOk(s, g)
    && (forall k {:trigger RoundOk(s, g, k)} :: 0 <= k < |s.locals| ==> RoundOk(s, g, k) && ClosedOk(s, g, k))
    && (forall t {:trigger ThreadOk(s, g, t)} :: 0 <= t < |s.pcs| ==> ThreadOk(s, g, t))
    && (forall k {:trigger TurnOk(s, g, k)} :: 0 <= k < |s.locals| ==> TurnOk(s, g, k))
  }

  // ---------------------------------------------------------------------------------------------
  // Each kind of step keeps the invariant

  /** Pigeonhole: while a round is open and nobody was served from it yet, a thread that found no
      ticket left would be one too many on its socket. */
  lemma NoTicketLeft(s: State, g: Abs, t: nat)
    requires Inv(s, g) && t < |s.pcs| && s.pcs[t].WaitTurn? && s.Own(t).cur == TICKETS
    ensures g.lead[s.node[t]] == -1
  {
    var k := s.node[t];
    var l := s.locals[k];
    assert ThreadOk(s, g, t) && RoundOk(s, g, k) && TurnOk(s, g, k);
    var h := g.lead[k];
    if h != -1 {
      assert LeadsItsSocket(s, g, h, k) by { LeadThread(s, g, k); }
      var crowd := g.taker[k] + [h, t];
      forall i | 0 <= i < TICKETS ensures Waits(s, g.taker[k][i], k, i) {}
      forall a, b | 0 <= a < b < |crowd| ensures crowd[a] != crowd[b] {
        if b < TICKETS { assert Waits(s, g.taker[k][a], k, a) && Waits(s, g.taker[k][b], k, b); }
        else if a < TICKETS { assert Waits(s, g.taker[k][a], k, a); }
      }
      forall a | 0 <= a < |crowd| ensures crowd[a] in Crew(s, k) {
        if a < TICKETS { assert Waits(s, g.taker[k][a], k, a); }
      }
      DistinctSize(crowd, Crew(s, k));
    }
  }

  ghost predicate LeadsItsSocket(s: State, g: Abs, h: int, k: nat) {
    0 <= h < |s.pcs| && Fits(s, h) && s.node[h] == k && Leads(s, h)
  }

  lemma LeadThread(s: State, g: Abs, k: nat)
    requires Inv(s, g) && k < |s.locals| && g.lead[k] != -1
    ensures LeadsItsSocket(s, g, g.lead[k], k)
  {
    assert RoundOk(s, g, k) && ThreadOk(s, g, g.lead[k]);
  }

  lemma PlacementKept(s: State, s1: State)
    requires Placement(s) && s1.node == s.node && |s1.pcs| == |s.pcs| && |s1.locals| == |s.locals|
    ensures Placement(s1)
  {
    forall k | 0 <= k < |s1.locals| ensures |Crew(s1, k)| <= TICKETS + 1 { assert Crew(s1, k) == Crew(s, k); }
  }

  /** Steps that leave the global words alone and do not leave the global queue. */
  lemma GlobalKept(s: State, g: Abs, t: nat, pc: Pc)
    requires GlobalOk(s, g) && t < |s.pcs| && (s.pcs[t].WaitGlobal? ==> s.pcs[t].number <= s.cur)
    ensures GlobalOk(s.Goto(t, pc), g)
  {
    forall n | s.cur < n < s.nxt ensures Drew(s.Goto(t, pc), g.drawer[n], n) { assert Drew(s, g.drawer[n], n); }
  }

  /** A socket whose words and round are untouched by t's step stays as it is. */
  lemma RoundKept(s: State, g: Abs, s1: State, g1: Abs, t: nat, k: nat)
    requires |g.lead| == |g.taker| == |g.turner| == |s.locals| == |s1.locals| == |g1.lead| == |g1.taker| == |g1.turner|
    requires k < |s.locals| && RoundOk(s, g, k)
    requires s1.locals[k] == s.locals[k] && s1.node == s.node && g1.lead[k] == g.lead[k] && g1.taker[k] == g.taker[k]
    requires t < |s.pcs| == |s1.pcs| && forall u :: 0 <= u < |s.pcs| && u != t ==> s1.pcs[u] == s.pcs[u]
    requires s.pcs[t].WaitLocal? ==> Fits(s, t) && s.Own(t).cur <= s.pcs[t].ticket
    ensures RoundOk(s1, g1, k)
  {
    if g.lead[k] != -1 {
      forall i | 0 <= i < s.locals[k].cur && s.locals[k].nxt <= i ensures Waits(s1, g1.taker[k][i], k, i) {
        assert Waits(s, g.taker[k][i], k, i);
      }
    }
  }

  /** Steps that touch only the thread's own program counter. */
  lemma QuietOk(s: State, g: Abs, t: nat, pc: Pc)
    requires Inv(s, g) && t < |s.pcs| && ThreadOk(s.Goto(t, pc), g, t)
    requires s.pcs[t].WaitGlobal? ==> s.pcs[t].number <= s.cur
    requires s.pcs[t].WaitLocal? ==> s.Own(t).cur <= s.pcs[t].ticket
    requires s.pcs[t].StoreFull? ==> s.locals[s.node[t]].cur == TICKETS
    ensures Inv(s.Goto(t, pc), g)
  {
    var s1 := s.Goto(t, pc);
    PlacementKept(s, s1);
    GlobalKept(s, g, t, pc);
    forall u | 0 <= u < |s1.pcs| ensures ThreadOk(s1, g, u) { assert ThreadOk(s, g, u); }
    forall k | 0 <= k < |s1.locals| ensures RoundOk(s1, g, k) && ClosedOk(s1, g, k) {
      assert RoundOk(s, g, k) && ClosedOk(s, g, k);
      RoundKept(s, g, s1, g, t, k);
    }
    forall k | 0 <= k < |s1.locals| ensures TurnOk(s1, g, k) { assert TurnOk(s, g, k); }
  }

  function Taken(g: Abs, k: nat, i: int, t: nat): Abs
    requires k < |g.taker|
  {
    if i == -1 && k < |g.turner| then g.(turner := g.turner[k := t])
    else if 0 <= i < |g.taker[k]| then g.(taker := g.taker[k := g.taker[k][i := t]])
    else g
  }

  lemma GrabOther(s: State, g: Abs, t: nat, u: nat)
    requires |g.lead| == |g.taker| == |g.turner| == |s.locals| && Fits(s, t) && Fits(s, u) && u != t && s.pcs[t].Grab?
    requires ThreadOk(s, g, t) && ThreadOk(s, g, u) && RoundOk(s, g, s.node[t]) && TurnOk(s, g, s.node[t])
    ensures ThreadOk(Step(s, t), Taken(g, s.node[t], s.Own(t).nxt - 1, t), u)
  {
  }

  lemma GrabSelf(s: State, g: Abs, t: nat)
    requires Inv(s, g) && t < |s.pcs| && s.pcs[t].Grab?
    ensures ThreadOk(Step(s, t), Taken(g, s.node[t], s.Own(t).nxt - 1, t), t)
  {
    assert ThreadOk(s, g, t) && RoundOk(s, g, s.node[t]);
  }

  lemma GrabRound(s: State, g: Abs, t: nat, j: nat)
    requires Inv(s, g) && t < |s.pcs| && s.pcs[t].Grab? && j < |s.locals|
    ensures RoundOk(Step(s, t), Taken(g, s.node[t], s.Own(t).nxt - 1, t), j)
    ensures ClosedOk(Step(s, t), Taken(g, s.node[t], s.Own(t).nxt - 1, t), j)
  {
    var k, got := s.node[t], s.Own(t).nxt - 1;
    var s1, g1 := Step(s, t), Taken(g, k, got, t);
    assert RoundOk(s, g, j) && ClosedOk(s, g, j) && RoundOk(s, g, k);
    if g1.lead[j] != -1 {
      forall i | 0 <= i < s1.locals[j].cur && s1.locals[j].nxt <= i ensures Waits(s1, g1.taker[j][i], j, i) {
        assert (j != k || i != got) ==> Waits(s, g.taker[j][i], j, i);
      }
    }
  }

  lemma GrabOk(s: State, g: Abs, t: nat)
    requires Inv(s, g) && t < |s.pcs| && s.pcs[t].Grab?
    ensures Inv(Step(s, t), Taken(g, s.node[t], s.Own(t).nxt - 1, t))
  {
    var s1, g1 := Step(s, t), Taken(g, s.node[t], s.Own(t).nxt - 1, t);
    PlacementKept(s, s1);
    GlobalKept(s, g, t, s1.pcs[t]);
    forall n | s1.cur < n < s1.nxt ensures Drew(s1, g1.drawer[n], n) { assert Drew(s, g.drawer[n], n); }
    forall u | 0 <= u < |s1.pcs| ensures ThreadOk(s1, g1, u) {
      assert ThreadOk(s, g, t) && ThreadOk(s, g, u) && RoundOk(s, g, s.node[t]) && TurnOk(s, g, s.node[t]);
      if u == t { GrabSelf(s, g, t); } else { GrabOther(s, g, t, u); }
    }
    forall j | 0 <= j < |s1.locals| ensures RoundOk(s1, g1, j) && ClosedOk(s1, g1, j) { GrabRound(s, g, t, j); }
    forall j | 0 <= j < |s1.locals| ensures TurnOk(s1, g1, j) { assert TurnOk(s, g, j); }
  }

  function Opened(g: Abs, k: nat, t: nat): Abs
    requires k < |g.lead| == |g.turner|
  {
    g.(lead := g.lead[k := t], turner := g.turner[k := -1])
  }

  lemma RefillThread(s: State, g: Abs, t: nat, u: nat)
    requires Inv(s, g) && t < |s.pcs| && s.pcs[t].Refill? && u < |s.pcs|
    ensures ThreadOk(Step(s, t), Opened(g, s.node[t], t), u)
  {
    assert ThreadOk(s, g, t) && ThreadOk(s, g, u);
  }

  /** A new round opens, led by the thread that refills it. */
  lemma RefillOk(s: State, g: Abs, t: nat)
    requires Inv(s, g) && t < |s.pcs| && s.pcs[t].Refill?
    ensures Inv(Step(s, t), Opened(g, s.node[t], t))
  {
    var s1, g1 := Step(s, t), Opened(g, s.node[t], t);
    assert ThreadOk(s, g, t);
    PlacementKept(s, s1);
    forall n | s1.cur < n < s1.nxt ensures Drew(s1, g1.drawer[n], n) { assert Drew(s, g.drawer[n], n); }
    forall u | 0 <= u < |s1.pcs| ensures ThreadOk(s1, g1, u) { RefillThread(s, g, t, u); }
    forall j | 0 <= j < |s1.locals| ensures RoundOk(s1, g1, j) && ClosedOk(s1, g1, j) {
      assert RoundOk(s, g, j) && ClosedOk(s, g, j);
      if j != s.node[t] { RoundKept(s, g, s1, g1, t, j); }
    }
    forall k | 0 <= k < |s1.locals| ensures TurnOk(s1, g1, k) { assert TurnOk(s, g, k); }
  }

  lemma DrawThread(s: State, g: Abs, t: nat, u: nat)
    requires Inv(s, g) && t < |s.pcs| && s.pcs[t].Draw? && u < |s.pcs|
    ensures ThreadOk(Step(s, t), Drawn(s, g, t), u)
  {
    assert ThreadOk(s, g, t) && ThreadOk(s, g, u);
  }

  /** Drawing a global number: the lock is taken at once if nobody has it. */
  lemma DrawOk(s: State, g: Abs, t: nat)
    requires Inv(s, g) && t < |s.pcs| && s.pcs[t].Draw?
    ensures Inv(Step(s, t), Drawn(s, g, t))
  {
    var s1, g1 := Step(s, t), Drawn(s, g, t);
    PlacementKept(s, s1);
    forall n | s1.cur < n < s1.nxt ensures Drew(s1, g1.drawer[n], n) {
      if n < s.nxt { assert Drew(s, g.drawer[n], n); }
    }
    forall u | 0 <= u < |s1.pcs| ensures ThreadOk(s1, g1, u) { DrawThread(s, g, t, u); }
    forall j | 0 <= j < |s1.locals| ensures RoundOk(s1, g1, j) && ClosedOk(s1, g1, j) {
      assert RoundOk(s, g, j) && ClosedOk(s, g, j);
      RoundKept(s, g, s1, g1, t, j);
    }
    forall k | 0 <= k < |s1.locals| ensures TurnOk(s1, g1, k) { assert TurnOk(s, g, k); }
  }

  lemma CloseThread(s: State, g: Abs, t: nat, u: nat)
    requires |g.lead| == |g.taker| == |g.turner| == |s.locals| && Fits(s, t) && Fits(s, u) && s.pcs[t].Close?
    requires ThreadOk(s, g, t) && ThreadOk(s, g, u) && RoundOk(s, g, s.node[t])
    requires Step(s, t).pcs[t].StoreFull?
    ensures ThreadOk(Step(s, t), g.(lead := g.lead[s.node[t] := -1]), u)
  {
  }

  /** The release finds nobody waiting behind it and closes the round. */
  lemma CloseOk(s: State, g: Abs, t: nat)
    requires Inv(s, g) && t < |s.pcs| && s.pcs[t].Close? && Step(s, t).pcs[t].StoreFull?
    ensures Inv(Step(s, t), g.(lead := g.lead[s.node[t] := -1]))
  {
    var s1, g1 := Step(s, t), g.(lead := g.lead[s.node[t] := -1]);
    assert ThreadOk(s, g, t);
    PlacementKept(s, s1);
    forall n | s1.cur < n < s1.nxt ensures Drew(s1, g1.drawer[n], n) { assert Drew(s, g.drawer[n], n); }
    forall u | 0 <= u < |s1.pcs| ensures ThreadOk(s1, g1, u) {
      assert ThreadOk(s, g, u) && RoundOk(s, g, s.node[t]);
      CloseThread(s, g, t, u);
    }
    forall j | 0 <= j < |s1.locals| ensures RoundOk(s1, g1, j) && ClosedOk(s1, g1, j) {
      assert RoundOk(s, g, j) && ClosedOk(s, g, j);
      if j != s.node[t] { RoundKept(s, g, s1, g1, t, j); }
    }
    forall k | 0 <= k < |s1.locals| ensures TurnOk(s1, g1, k) { assert TurnOk(s, g, k); }
  }

  lemma StoreFullThread(s: State, g: Abs, t: nat, u: nat)
    requires Inv(s, g) && t < |s.pcs| && s.pcs[t].StoreFull? && u < |s.pcs|
    requires g.lead[s.node[t]] != -1 ==> s.Own(t).cur == TICKETS
    ensures ThreadOk(Step(s, t), g, u)
  {
    assert ThreadOk(s, g, t) && ThreadOk(s, g, u);
  }

  /** A round that opened in the meantime has not been served, so the late store changes nothing. */
  lemma StoreFullOk(s: State, g: Abs, t: nat)
    requires Inv(s, g) && t < |s.pcs| && s.pcs[t].StoreFull?
    ensures Inv(Step(s, t), g)
  {
    var s1, k := Step(s, t), s.node[t];
    assert ThreadOk(s, g, t) && RoundOk(s, g, k);
    if g.lead[k] != -1 {
      LeadThread(s, g, k);
      assert ThreadOk(s, g, g.lead[k]);
      assert s.locals[k].cur == TICKETS && s1.locals == s.locals;
    }
    PlacementKept(s, s1);
    forall n | s1.cur < n < s1.nxt ensures Drew(s1, g.drawer[n], n) { assert Drew(s, g.drawer[n], n); }
    forall u | 0 <= u < |s1.pcs| ensures ThreadOk(s1, g, u) { StoreFullThread(s, g, t, u); }
    forall j | 0 <= j < |s1.locals| ensures RoundOk(s1, g, j) && ClosedOk(s1, g, j) {
      assert RoundOk(s, g, j) && ClosedOk(s, g, j);
      if j != k || g.lead[k] != -1 { RoundKept(s, g, s1, g, t, j); }
    }
    forall k | 0 <= k < |s1.locals| ensures TurnOk(s1, g, k) { assert TurnOk(s, g, k); }
  }

  function Heir(s: State, g: Abs): int {
    if s.cur + 1 < s.nxt && s.cur + 1 < |g.drawer| then g.drawer[s.cur + 1] else -1
  }

  lemma StoreGlobalThread(s: State, g: Abs, t: nat, u: nat)
    requires Inv(s, g) && t < |s.pcs| && s.pcs[t].StoreGlobal? && u < |s.pcs|
    ensures ThreadOk(Step(s, t), g.(owner := Heir(s, g)), u)
  {
    assert ThreadOk(s, g, t) && ThreadOk(s, g, u);
    if s.cur + 1 < s.nxt { assert Drew(s, g.drawer[s.cur + 1], s.cur + 1); }
  }

  /** The global handover: the thread with the next number has the lock. */
  lemma StoreGlobalOk(s: State, g: Abs, t: nat)
    requires Inv(s, g) && t < |s.pcs| && s.pcs[t].StoreGlobal?
    ensures Inv(Step(s, t), g.(owner := Heir(s, g)))
  {
    var s1, g1 := Step(s, t), g.(owner := Heir(s, g));
    assert ThreadOk(s, g, t);
    if s.cur + 1 < s.nxt { assert Drew(s, g.drawer[s.cur + 1], s.cur + 1); }
    PlacementKept(s, s1);
    forall n | s1.cur < n < s1.nxt ensures Drew(s1, g1.drawer[n], n) { assert Drew(s, g.drawer[n], n); }
    forall u | 0 <= u < |s1.pcs| ensures ThreadOk(s1, g1, u) { StoreGlobalThread(s, g, t, u); }
    forall j | 0 <= j < |s1.locals| ensures RoundOk(s1, g1, j) && ClosedOk(s1, g1, j) {
      assert RoundOk(s, g, j) && ClosedOk(s, g, j);
      RoundKept(s, g, s1, g1, t, j);
    }
    forall k | 0 <= k < |s1.locals| ensures TurnOk(s1, g1, k) { assert TurnOk(s, g, k); }
  }

  function Passed(s: State, g: Abs, t: nat): Abs
    requires Fits(s, t) && |g.lead| == |g.taker| == |g.turner| == |s.locals|
  {
    var k := s.node[t];
    var heir := if 0 <= s.Own(t).cur - 1 < |g.taker[k]| then g.taker[k][s.Own(t).cur - 1] else -1;
    g.(owner := heir, lead := g.lead[k := heir])
  }

  lemma PassOnThread(s: State, g: Abs, t: nat, u: nat)
    requires Inv(s, g) && t < |s.pcs| && s.pcs[t].PassOn? && u < |s.pcs|
    ensures ThreadOk(Step(s, t), Passed(s, g, t), u)
  {
    var k := s.node[t];
    assert ThreadOk(s, g, t) && ThreadOk(s, g, u) && RoundOk(s, g, k);
    assert Waits(s, g.taker[k][s.Own(t).cur - 1], k, s.Own(t).cur - 1);
  }

  lemma PassOnRound(s: State, g: Abs, t: nat, j: nat)
    requires Inv(s, g) && t < |s.pcs| && s.pcs[t].PassOn? && j < |s.locals|
    ensures RoundOk(Step(s, t), Passed(s, g, t), j) && ClosedOk(Step(s, t), Passed(s, g, t), j)
  {
    var k, s1, g1 := s.node[t], Step(s, t), Passed(s, g, t);
    assert ThreadOk(s, g, t) && RoundOk(s, g, j) && ClosedOk(s, g, j) && RoundOk(s, g, k);
    assert Waits(s, g.taker[k][s.Own(t).cur - 1], k, s.Own(t).cur - 1);
    if g1.lead[j] != -1 {
      forall i | 0 <= i < s1.locals[j].cur && s1.locals[j].nxt <= i ensures Waits(s1, g1.taker[j][i], j, i) {
        assert Waits(s, g.taker[j][i], j, i);
      }
    }
  }

  /** The local handover: the thread with the next ticket of the round has the lock. */
  lemma PassOnOk(s: State, g: Abs, t: nat)
    requires Inv(s, g) && t < |s.pcs| && s.pcs[t].PassOn?
    ensures Inv(Step(s, t), Passed(s, g, t))
  {
    var s1, g1, k := Step(s, t), Passed(s, g, t), s.node[t];
    assert ThreadOk(s, g, t) && RoundOk(s, g, k);
    assert Waits(s, g.taker[k][s.Own(t).cur - 1], k, s.Own(t).cur - 1);
    PlacementKept(s, s1);
    forall n | s1.cur < n < s1.nxt ensures Drew(s1, g1.drawer[n], n) { assert Drew(s, g.drawer[n], n); }
    forall u | 0 <= u < |s1.pcs| ensures ThreadOk(s1, g1, u) { PassOnThread(s, g, t, u); }
    forall j | 0 <= j < |s1.locals| ensures RoundOk(s1, g1, j) && ClosedOk(s1, g1, j) { PassOnRound(s, g, t, j); }
    forall k | 0 <= k < |s1.locals| ensures TurnOk(s1, g1, k) { assert TurnOk(s, g, k); }
  }

  /** Calls, reads and spins. */
  lemma LookOk(s: State, g: Abs, t: nat)
    requires Inv(s, g) && t < |s.pcs|
    requires var pc := s.pcs[t];
             pc.Idle? || pc.WaitLocal? || pc.WaitGlobal? || pc.Critical? || pc.ReadCur? || pc.ReadGlobal?
    ensures Inv(Step(s, t), g)
  {
    assert ThreadOk(s, g, t);
    if Step(s, t) != s { QuietOk(s, g, t, Step(s, t).pcs[t]); }
  }

  lemma WaitTurnOk(s: State, g: Abs, t: nat)
    requires Inv(s, g) && t < |s.pcs| && s.pcs[t].WaitTurn?
    ensures Inv(Step(s, t), g)
  {
    assert ThreadOk(s, g, t);
    if s.Own(t).cur == TICKETS {
      NoTicketLeft(s, g, t);
      QuietOk(s, g, t, Refill);
    }
  }

  lemma KeepGoingOk(s: State, g: Abs, t: nat)
    requires Inv(s, g) && t < |s.pcs| && s.pcs[t].Close? && !Step(s, t).pcs[t].StoreFull?
    ensures Inv(Step(s, t), g)
  {
    assert ThreadOk(s, g, t) && RoundOk(s, g, s.node[t]);
    QuietOk(s, g, t, PassOn(s.pcs[t].seen));
  }

  function Drawn(s: State, g: Abs, t: nat): Abs {
    g.(drawer := g.drawer + [t], owner := if s.cur == s.nxt then t else g.owner)
  }

  /** Who has what after thread t's step. */
  function After(s: State, g: Abs, t: nat): Abs
    requires Fits(s, t) && |g.lead| == |g.taker| == |g.turner| == |s.locals|
  {
    match s.pcs[t]
    case Grab => Taken(g, s.node[t], s.Own(t).nxt - 1, t)
    case Refill => Opened(g, s.node[t], t)
    case Draw => Drawn(s, g, t)
    case Close(_) => if Step(s, t).pcs[t].StoreFull? then g.(lead := g.lead[s.node[t] := -1]) else g
    case StoreGlobal(_) => g.(owner := Heir(s, g))
    case PassOn(_) => Passed(s, g, t)
    case _ => g
  }

  lemma StepKeeps(s: State, g: Abs, t: nat)
    requires Inv(s, g) && t < |s.pcs|
    ensures Inv(Step(s, t), After(s, g, t))
  {
    match s.pcs[t] {
      case Grab => GrabOk(s, g, t);
      case WaitTurn => WaitTurnOk(s, g, t);
      case Refill => RefillOk(s, g, t);
      case Draw => DrawOk(s, g, t);
      case Close(_) => if Step(s, t).pcs[t].StoreFull? { CloseOk(s, g, t); } else { KeepGoingOk(s, g, t); }
      case StoreFull => StoreFullOk(s, g, t);
      case StoreGlobal(_) => StoreGlobalOk(s, g, t);
      case PassOn(_) => PassOnOk(s, g, t);
      case _ => LookOk(s, g, t);
    }
  }

  // ---------------------------------------------------------------------------------------------
  // What holds in every reachable state

  ghost predicate IsRun(run: seq<State>, sched: seq<nat>, sockets: nat, node: seq<nat>) {
    && |run| == |sched| + 1 && run[0] == Init(sockets, node) && Placement(run[0])
    && forall i :: 0 <= i < |sched| ==> Fits(run[i], sched[i]) && run[i + 1] == Step(run[i], sched[i])
  }

  function Nobody(sockets: nat): Abs {
    Abs(-1, seq(sockets, _ => -1), seq(sockets, _ => -1), seq(sockets, _ => seq(TICKETS, _ => -1)), [])
  }

  lemma InitOk(sockets: nat, node: seq<nat>)
    requires Placement(Init(sockets, node))
    ensures Inv(Init(sockets, node), Nobody(sockets))
  {
    var s, g := Init(sockets, node), Nobody(sockets);
    forall t | 0 <= t < |s.pcs| ensures ThreadOk(s, g, t) { assert Fits(s, t); }
    forall k | 0 <= k < |s.locals| ensures RoundOk(s, g, k) && ClosedOk(s, g, k) && TurnOk(s, g, k) {}
  }

  lemma {:induction false} Reachable(run: seq<State>, sched: seq<nat>, sockets: nat, node: seq<nat>) returns (g: Abs)
    requires IsRun(run, sched, sockets, node)
    ensures Inv(run[|sched|], g)
    decreases |sched|
  {
    if sched == [] {
      g := Nobody(sockets);
      InitOk(sockets, node);
    } else {
      var k := |sched| - 1;
      g := Reachable(run[..k + 1], sched[..k], sockets, node);
      StepKeeps(run[k], g, sched[k]);
      g := After(run[k], g, sched[k]);
    }
  }

  /** Mutual exclusion, over every run: at most one thread has the lock, and no global number serves
      more than TICKETS local handovers. */
  lemma MutualExclusion(run: seq<State>, sched: seq<nat>, sockets: nat, node: seq<nat>)
    requires IsRun(run, sched, sockets, node)
    ensures var s := run[|sched|];
            (forall t, u :: 0 <= t < |s.pcs| && 0 <= u < |s.pcs| && InHands(s.pcs[t]) && InHands(s.pcs[u]) ==> t == u)
            && s.handovers <= TICKETS
  {
    var s := run[|sched|];
    var g := Reachable(run, sched, sockets, node);
    forall t, u | 0 <= t < |s.pcs| && 0 <= u < |s.pcs| && InHands(s.pcs[t]) && InHands(s.pcs[u]) ensures t == u {
      assert ThreadOk(s, g, t) && ThreadOk(s, g, u);
    }
  }

  /** No two threads of a socket wait on the same local ticket, and none on the same global number. */
  lemma TicketsDistinct(run: seq<State>, sched: seq<nat>, sockets: nat, node: seq<nat>, t: nat, u: nat)
    requires IsRun(run, sched, sockets, node)
    requires var s := run[|sched|]; t < |s.pcs| && u < |s.pcs| && t != u
    ensures var s := run[|sched|];
            && (s.pcs[t].WaitGlobal? ==> s.pcs[u] != s.pcs[t])
            && (s.pcs[t].WaitLocal? && Fits(s, t) && Fits(s, u) && s.node[t] == s.node[u] ==> s.pcs[u] != s.pcs[t])
  {
    var s := run[|sched|];
    var g := Reachable(run, sched, sockets, node);
    assert ThreadOk(s, g, t) && ThreadOk(s, g, u);
  }

  /** No deadlock and no lost handover: as long as some thread is between lock and release, some thread's
      next step takes it on; when the lock is taken, that is its owner, never left spinning. */
  lemma SomeoneMoves(s: State, g: Abs, t: nat) returns (u: nat)
    requires Inv(s, g) && t < |s.pcs| && s.pcs[t] != Idle
    ensures u < |s.pcs| && s.pcs[u] != Idle && Step(s, u).pcs[u] != s.pcs[u]
    ensures s.cur != s.nxt ==> Holds(s, u)
  {
    var k := s.node[t];
    assert ThreadOk(s, g, t) && RoundOk(s, g, k) && ClosedOk(s, g, k) && TurnOk(s, g, k);
    if g.owner != -1 {
      u := g.owner;
      assert ThreadOk(s, g, u);
    } else if g.lead[k] != -1 {
      u := g.lead[k];
      LeadThread(s, g, k);
      assert ThreadOk(s, g, u);
    } else if g.turner[k] != -1 {
      u := g.turner[k];
      assert ThreadOk(s, g, u);
    } else {
      u := t;
    }
  }

  lemma NoDeadlock(run: seq<State>, sched: seq<nat>, sockets: nat, node: seq<nat>, t: nat) returns (u: nat)
    requires IsRun(run, sched, sockets, node) && t < |run[|sched|].pcs| && run[|sched|].pcs[t] != Idle
    ensures var s := run[|sched|];
            Fits(s, u) && s.pcs[u] != Idle && Step(s, u).pcs[u] != s.pcs[u] && (s.cur != s.nxt ==> Holds(s, u))
  {
    var g := Reachable(run, sched, sockets, node);
    u := SomeoneMoves(run[|sched|], g, t);
    assert ThreadOk(run[|sched|], g, u);
  }

  /** How far a thread still has to go. */
  function Stage(pc: Pc): nat {
    match pc
    case Idle => 0
    case PassOn(_) => 1
    case StoreGlobal(_) => 1
    case ReadGlobal => 2
    case StoreFull => 3
    case Close(_) => 4
    case ReadCur => 5
    case Critical => 6
    case WaitGlobal(_) => 7
    case WaitLocal(_) => 7
    case Draw => 8
    case Refill => 9
    case WaitTurn => 10
    case Grab => 11
  }

  /** Every step that is not a failed spin takes its thread nearer to the end of its release, so the
      moves NoDeadlock speaks of cannot go round in circles. */
  lemma MovesForward(s: State, t: nat)
    requires Fits(s, t) && s.pcs[t] != Idle
    ensures Step(s, t).pcs[t] == s.pcs[t] || Stage(Step(s, t).pcs[t]) < Stage(s.pcs[t])
  {
  }

  // ---------------------------------------------------------------------------------------------
  // Bounded waiting

  predicate Enters(s: State, t: nat) requires Fits(s, t) {
    !s.pcs[t].Critical? && Step(s, t).pcs[t].Critical?
  }

  function Inside(s: State, g: Abs): nat {
    if 0 <= g.owner < |s.pcs| && InHands(s.pcs[g.owner]) then 1 else 0
  }

  /** At least the number of times the critical section was entered; and each global number adds at
      most TICKETS + 1, one for its drawer and one for each local handover. */
  function Served(s: State, g: Abs): nat {
    s.cur * (TICKETS + 1) + s.handovers + Inside(s, g)
  }

  lemma ServedGrows(s: State, g: Abs, t: nat)
    requires Inv(s, g) && t < |s.pcs|
    ensures Served(Step(s, t), After(s, g, t)) >= Served(s, g) + if Enters(s, t) then 1 else 0
  {
    if s.pcs[t].StoreGlobal? { ServedByGlobal(s, g, t); }
    else if s.pcs[t].PassOn? { ServedByLocal(s, g, t); }
    else { ServedElse(s, g, t); }
  }

  lemma ServedByGlobal(s: State, g: Abs, t: nat)
    requires Inv(s, g) && t < |s.pcs| && s.pcs[t].StoreGlobal?
    ensures Served(Step(s, t), After(s, g, t)) >= Served(s, g) && !Enters(s, t)
  {
    assert ThreadOk(s, g, t);
    if s.cur + 1 < s.nxt { assert Drew(s, g.drawer[s.cur + 1], s.cur + 1); }
  }

  lemma ServedByLocal(s: State, g: Abs, t: nat)
    requires Inv(s, g) && t < |s.pcs| && s.pcs[t].PassOn?
    ensures Served(Step(s, t), After(s, g, t)) >= Served(s, g) && !Enters(s, t)
  {
    assert ThreadOk(s, g, t) && RoundOk(s, g, s.node[t]);
    assert Waits(s, g.taker[s.node[t]][s.Own(t).cur - 1], s.node[t], s.Own(t).cur - 1);
  }

  lemma ServedElse(s: State, g: Abs, t: nat)
    requires Inv(s, g) && t < |s.pcs| && !s.pcs[t].StoreGlobal? && !s.pcs[t].PassOn?
    ensures Served(Step(s, t), After(s, g, t)) >= Served(s, g) + if Enters(s, t) then 1 else 0
  {
    assert ThreadOk(s, g, t);
  }

  ghost predicate IsSegment(run: seq<State>, sched: seq<nat>) {
    && |run| == |sched| + 1
    && forall i :: 0 <= i < |sched| ==> Fits(run[i], sched[i]) && run[i + 1] == Step(run[i], sched[i])
  }

  /** How often the critical section is entered on the way. */
  ghost function Entries(run: seq<State>, sched: seq<nat>): nat
    requires IsSegment(run, sched)
    decreases |sched|
  {
    if sched == [] then 0
    else
      var k := |sched| - 1;
      Entries(run[..k + 1], sched[..k]) + if Enters(run[k], sched[k]) then 1 else 0
  }

  lemma {:induction false} SegmentServed(run: seq<State>, sched: seq<nat>, g: Abs) returns (g1: Abs)
    requires IsSegment(run, sched) && Inv(run[0], g)
    ensures Inv(run[|sched|], g1) && Served(run[|sched|], g1) >= Served(run[0], g) + Entries(run, sched)
    ensures |run[|sched|].locals| == |run[0].locals|
    decreases |sched|
  {
    g1 := g;
    if sched != [] {
      var k := |sched| - 1;
      g1 := SegmentServed(run[..k + 1], sched[..k], g);
      StepKeeps(run[k], g1, sched[k]);
      ServedGrows(run[k], g1, sched[k]);
      g1 := After(run[k], g1, sched[k]);
    }
  }

  function UpTo(n: nat): (all: set<nat>)
    ensures |all| == n && forall x: nat :: x in all <==> x < n
  {
    if n == 0 then {} else UpTo(n - 1) + {n - 1}
  }

  /** Two threads waiting for global numbers lead the rounds of two sockets. */
  lemma WaitersApart(s: State, g: Abs, m: nat, n: nat)
    requires Inv(s, g) && s.cur < m < s.nxt && s.cur < n < s.nxt
    ensures m < |g.drawer| && n < |g.drawer| && SocketOf(s, g.drawer[m]) < |s.locals|
    ensures m != n ==> SocketOf(s, g.drawer[m]) != SocketOf(s, g.drawer[n])
  {
    assert Drew(s, g.drawer[m], m) && Drew(s, g.drawer[n], n);
    assert ThreadOk(s, g, g.drawer[m]) && ThreadOk(s, g, g.drawer[n]);
  }

  /** Each socket has at most one global number outstanding behind the current one. */
  lemma NumbersPerSocket(s: State, g: Abs)
    requires Inv(s, g)
    ensures s.nxt <= s.cur + 1 + |s.locals|
    ensures |g.drawer| == s.nxt && forall m, n :: s.cur < m < n < s.nxt ==>
        SocketOf(s, g.drawer[m]) != SocketOf(s, g.drawer[n])
  {
    forall m, n | s.cur < m < n < s.nxt ensures SocketOf(s, g.drawer[m]) != SocketOf(s, g.drawer[n]) {
      WaitersApart(s, g, m, n);
    }
    if s.nxt > s.cur {
      var n := s.nxt - s.cur - 1;
      var sockets := seq(n, i requires 0 <= i < n => SocketOf(s, g.drawer[s.cur + 1 + i]));
      forall i | 0 <= i < n ensures sockets[i] in UpTo(|s.locals|) { WaitersApart(s, g, s.cur + 1 + i, s.cur + 1 + i); }
      forall a, b | 0 <= a < b < n ensures sockets[a] != sockets[b] {
        WaitersApart(s, g, s.cur + 1 + a, s.cur + 1 + b);
      }
      DistinctSize(sockets, UpTo(|s.locals|));
    }
  }

  function SocketOf(s: State, t: int): nat { if 0 <= t < |s.node| then s.node[t] else 0 }

  /** Bounded waiting: from any reachable state on, while the thread that holds global number n still
      waits for it, the critical section is entered at most (n - cur) * (TICKETS + 1) times, and if
      the number was already drawn that is at most once per socket and ticket. */
  lemma BoundedWaiting(run: seq<State>, sched: seq<nat>, sockets: nat, node: seq<nat>, i: nat, t: nat)
    requires IsRun(run, sched, sockets, node) && i <= |sched|
    requires t < |run[|sched|].pcs| && run[|sched|].pcs[t].WaitGlobal?
    ensures var n, s := run[|sched|].pcs[t].number, run[i];
            && IsSegment(run[i..], sched[i..]) && s.cur <= n
            && Entries(run[i..], sched[i..]) <= (n - s.cur) * (TICKETS + 1)
            && (n < s.nxt ==> n - s.cur <= |s.locals|)
  {
    var s, last := run[i], run[|sched|];
    var g := Reachable(run[..i + 1], sched[..i], sockets, node);
    var g1 := SegmentServed(run[i..], sched[i..], g);
    assert run[i..][|sched| - i] == last;
    assert ThreadOk(last, g1, t);
    NumbersPerSocket(s, g);
  }
}
