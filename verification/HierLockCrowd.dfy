/** How many threads a socket may have: with more than TICKETS + 1 of them on one socket, the ticket
    numbers of two rounds meet, and two threads enter.

    The run: a leader enters and TICKETS threads take all its local tickets.  One more thread finds none
    left, and, as nobody was served locally yet, takes it for the end of the round and is about to hand
    out new ones.  The leader passes the lock on, the new tickets come, and the leader takes the first,
    which is the one being served. */
module HierLockCrowd {
  import opened Relaxation
  import opened HierLock

  ghost predicate Arrives(run: seq<State>, sched: seq<nat>, sockets: nat, node: seq<nat>, s: State) {
    IsSegment(run, sched) && run[0] == Init(sockets, node) && run[|sched|] == s
  }

  ghost predicate Reached(sockets: nat, node: seq<nat>, s: State) {
    exists run, sched :: Arrives(run, sched, sockets, node, s)
  }

  lemma Onward(sockets: nat, node: seq<nat>, s: State, t: nat)
    requires Reached(sockets, node, s) && Fits(s, t)
    ensures Reached(sockets, node, Step(s, t))
  {
    var run, sched :| Arrives(run, sched, sockets, node, s);
    var run1, sched1 := run + [Step(s, t)], sched + [t];
    forall i | 0 <= i < |sched1| ensures Fits(run1[i], sched1[i]) && run1[i + 1] == Step(run1[i], sched1[i]) {
      if i < |sched| { assert Fits(run[i], sched[i]) && run[i + 1] == Step(run[i], sched[i]); }
    }
    assert Arrives(run1, sched1, sockets, node, Step(s, t));
  }

  ghost predicate Exclusive(s: State) {
    forall t, u :: 0 <= t < |s.pcs| && 0 <= u < |s.pcs| && InHands(s.pcs[t]) && InHands(s.pcs[u]) ==> t == u
  }

  /** n different threads of socket k. */
  ghost predicate Crowd(s: State, k: nat, crowd: seq<nat>) {
    && (forall i :: 0 <= i < |crowd| ==> Fits(s, crowd[i]) && s.node[crowd[i]] == k)
    && forall i, j :: 0 <= i < j < |crowd| ==> crowd[i] != crowd[j]
  }

  /** The leader has the lock, and the next i threads of the crowd have taken tickets. */
  ghost predicate Queued(sockets: nat, node: seq<nat>, k: nat, crowd: seq<nat>, i: nat, s: State) {
    && Reached(sockets, node, s) && |crowd| == TICKETS + 2 && Crowd(s, k, crowd) && k < |s.locals| && i <= TICKETS
    && s.locals[k] == Local(TICKETS - i, TICKETS) && s.pcs[crowd[0]] == Critical
    && (forall j :: 0 < j <= i ==> s.pcs[crowd[j]] == WaitLocal(TICKETS - j))
    && forall j :: i < j < |crowd| ==> s.pcs[crowd[j]] == Idle
  }

  /** Thread t makes a step that leaves socket k at (nxt, cur), the global words at (gnxt, 0) and itself at pc. */
  lemma Goes(sockets: nat, node: seq<nat>, s: State, t: nat, l: Local, gnxt: nat, pc: Pc) returns (s1: State)
    requires Reached(sockets, node, s) && Fits(s, t)
    requires Step(s, t) == s.SetOwn(t, l).(nxt := gnxt).Goto(t, pc)
    ensures Reached(sockets, node, s1) && s1 == s.SetOwn(t, l).(nxt := gnxt).Goto(t, pc)
  {
    Onward(sockets, node, s, t);
    s1 := Step(s, t);
  }

  lemma LeaderEnters(sockets: nat, node: seq<nat>, k: nat, crowd: seq<nat>) returns (s: State)
    requires k < sockets && |crowd| == TICKETS + 2 && Crowd(Init(sockets, node), k, crowd)
    ensures Queued(sockets, node, k, crowd, 0, s) && s.cur == 0 && s.nxt == 1
  {
    s := Init(sockets, node);
    var t := crowd[0];
    assert Arrives([s], [], sockets, node, s);
    s := Goes(sockets, node, s, t, Local(0, TICKETS), 0, Grab);
    s := Goes(sockets, node, s, t, Local(-1, TICKETS), 0, WaitTurn);
    s := Goes(sockets, node, s, t, Local(-1, TICKETS), 0, Refill);
    s := Goes(sockets, node, s, t, Local(TICKETS, TICKETS), 0, Draw);
    s := Goes(sockets, node, s, t, Local(TICKETS, TICKETS), 1, WaitGlobal(0));
    s := Goes(sockets, node, s, t, Local(TICKETS, TICKETS), 1, Critical);
  }

  lemma {:induction false} TakeTickets(sockets: nat, node: seq<nat>, k: nat, crowd: seq<nat>, i: nat)
    returns (s: State)
    requires k < sockets && |crowd| == TICKETS + 2 && Crowd(Init(sockets, node), k, crowd) && i <= TICKETS
    ensures Queued(sockets, node, k, crowd, i, s) && s.cur == 0 && s.nxt == 1
  {
    if i == 0 {
      s := LeaderEnters(sockets, node, k, crowd);
    } else {
      s := TakeTickets(sockets, node, k, crowd, i - 1);
      var t, nxt := crowd[i], TICKETS - i;
      s := Goes(sockets, node, s, t, Local(nxt + 1, TICKETS), 1, Grab);
      s := Goes(sockets, node, s, t, Local(nxt, TICKETS), 1, WaitLocal(nxt));
    }
  }

  /** The last of the crowd is about to hand out new tickets while the leader passes the lock on. */
  lemma LastRefills(sockets: nat, node: seq<nat>, k: nat, crowd: seq<nat>) returns (s: State)
    requires k < sockets && |crowd| == TICKETS + 2 && Crowd(Init(sockets, node), k, crowd)
    ensures Reached(sockets, node, s) && Crowd(s, k, crowd) && s.locals[k] == Local(TICKETS, TICKETS)
    ensures s.pcs[crowd[0]] == PassOn(TICKETS) && s.pcs[crowd[1]] == WaitLocal(TICKETS - 1)
  {
    s := TakeTickets(sockets, node, k, crowd, TICKETS);
    var t, u := crowd[TICKETS + 1], crowd[0];
    s := Goes(sockets, node, s, t, Local(0, TICKETS), 1, Grab);
    s := Goes(sockets, node, s, t, Local(-1, TICKETS), 1, WaitTurn);
    s := Goes(sockets, node, s, t, Local(-1, TICKETS), 1, Refill);
    s := Goes(sockets, node, s, u, Local(-1, TICKETS), 1, ReadCur);
    s := Goes(sockets, node, s, u, Local(-1, TICKETS), 1, Close(TICKETS));
    s := Goes(sockets, node, s, u, Local(-1, TICKETS), 1, PassOn(TICKETS));
    s := Goes(sockets, node, s, t, Local(TICKETS, TICKETS), 1, Draw);
  }

  /** The leader comes back for a ticket, gets the one that is being served, and both enter. */
  lemma BothEnter(sockets: nat, node: seq<nat>, k: nat, crowd: seq<nat>) returns (s: State)
    requires k < sockets && |crowd| == TICKETS + 2 && Crowd(Init(sockets, node), k, crowd)
    ensures Reached(sockets, node, s) && !Exclusive(s)
  {
    s := LastRefills(sockets, node, k, crowd);
    var t, u := crowd[1], crowd[0];
    var nxt, gnxt := TICKETS - 1, s.nxt;
    Onward(sockets, node, s, u);
    s := Step(s, u);
    s := Goes(sockets, node, s, u, Local(TICKETS, nxt), gnxt, Grab);
    s := Goes(sockets, node, s, u, Local(nxt, nxt), gnxt, WaitLocal(nxt));
    s := Goes(sockets, node, s, u, Local(nxt, nxt), gnxt, Critical);
    s := Goes(sockets, node, s, t, Local(nxt, nxt), gnxt, Critical);
    assert InHands(s.pcs[t]) && InHands(s.pcs[u]) && t != u;
  }

  lemma {:induction false} Enumerate<T>(all: set<T>, n: nat) returns (s: seq<T>)
    requires n <= |all|
    ensures |s| == n && (forall i :: 0 <= i < n ==> s[i] in all)
    ensures forall i, j :: 0 <= i < j < n ==> s[i] != s[j]
    decreases n
  {
    if n == 0 {
      s := [];
    } else {
      assert all != {};
      var x :| x in all;
      var rest := Enumerate(all - {x}, n - 1);
      s := [x] + rest;
    }
  }

  /** Exactly how many threads the lock is good for: it is mutually exclusive, over every run, if and only
      if no socket has more than TICKETS + 1 of them. */
  lemma MutexExactly(sockets: nat, node: seq<nat>)
    requires forall t :: 0 <= t < |node| ==> node[t] < sockets
    ensures (forall s :: Reached(sockets, node, s) ==> Exclusive(s)) <==> Placement(Init(sockets, node))
  {
    var s0 := Init(sockets, node);
    if Placement(s0) {
      forall s | Reached(sockets, node, s) ensures Exclusive(s) {
        var run, sched :| Arrives(run, sched, sockets, node, s);
        MutualExclusion(run, sched, sockets, node);
      }
    } else {
      var k :| 0 <= k < sockets && |Crew(s0, k)| > TICKETS + 1;
      var some := Enumerate(Crew(s0, k), TICKETS + 2);
      var crowd: seq<nat> := seq(TICKETS + 2, i requires 0 <= i < TICKETS + 2 => if some[i] >= 0 then some[i] else 0);
      var s := BothEnter(sockets, node, k, crowd);
    }
  }
}
