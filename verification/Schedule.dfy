/** Runs of a state machine whose steps are moves of threads: who moved, what each step came to, and how
    much of it was calls, accesses or effects. */
module Schedule {

  datatype Move<A> = Move(t: nat, act: A)

  /** Each move, made in its state, leads to the next one and comes to its event. */
  ghost predicate Chain<S(!new), A(!new), E(!new)>(run: seq<S>, moves: seq<Move<A>>, events: seq<E>,
                                                   makes: (S, Move<A>, S, E) -> bool) {
    && |run| == |moves| + 1 == |events| + 1
    && forall i {:trigger makes(run[i], moves[i], run[i + 1], events[i])} :: 0 <= i < |moves| ==>
        makes(run[i], moves[i], run[i + 1], events[i])
  }

  lemma ChainAt<S(!new), A(!new), E(!new)>(run: seq<S>, moves: seq<Move<A>>, events: seq<E>,
                                           makes: (S, Move<A>, S, E) -> bool, i: nat)
    requires Chain(run, moves, events, makes) && i < |moves|
    ensures makes(run[i], moves[i], run[i + 1], events[i])
  {
  }

  lemma ChainPrefix<S(!new), A(!new), E(!new)>(run: seq<S>, moves: seq<Move<A>>, events: seq<E>,
                                               makes: (S, Move<A>, S, E) -> bool)
    requires Chain(run, moves, events, makes) && moves != []
    ensures var k := |moves| - 1;
            && Chain(run[..k + 1], moves[..k], events[..k], makes)
            && makes(run[k], moves[k], run[k + 1], events[k])
            && moves == moves[..k] + [moves[k]] && events == events[..k] + [events[k]]
  {
    var k := |moves| - 1;
    forall i | 0 <= i < k ensures makes(run[..k + 1][i], moves[..k][i], run[..k + 1][i + 1], events[..k][i]) {
      assert makes(run[i], moves[i], run[i + 1], events[i]);
    }
  }

  lemma ChainOn<S(!new), A(!new), E(!new)>(run: seq<S>, moves: seq<Move<A>>, events: seq<E>,
                                           makes: (S, Move<A>, S, E) -> bool, m: Move<A>, s: S, e: E)
    requires Chain(run, moves, events, makes) && makes(run[|moves|], m, s, e)
    ensures Chain(run + [s], moves + [m], events + [e], makes)
  {
    var run1, moves1, events1 := run + [s], moves + [m], events + [e];
    forall i | 0 <= i < |moves1| ensures makes(run1[i], moves1[i], run1[i + 1], events1[i]) {
      if i < |moves| { assert makes(run[i], moves[i], run[i + 1], events[i]); }
    }
  }

  /** What all moves, or those of thread t, add up to. */
  function Count<A>(moves: seq<Move<A>>, f: A -> nat): nat {
    if moves == [] then 0 else Count(moves[..|moves| - 1], f) + f(moves[|moves| - 1].act)
  }

  function CountBy<A>(moves: seq<Move<A>>, f: A -> nat, t: nat): nat {
    if moves == [] then 0
    else CountBy(moves[..|moves| - 1], f, t) + if moves[|moves| - 1].t == t then f(moves[|moves| - 1].act) else 0
  }

  function Effects<E>(events: seq<E>, f: E -> nat): nat {
    if events == [] then 0 else Effects(events[..|events| - 1], f) + f(events[|events| - 1])
  }

  function EffectsBy<A, E>(moves: seq<Move<A>>, events: seq<E>, f: E -> nat, t: nat): nat
    requires |moves| == |events|
  {
    if moves == [] then 0
    else
      var k := |moves| - 1;
      EffectsBy(moves[..k], events[..k], f, t) + if moves[k].t == t then f(events[k]) else 0
  }

  /** A move of thread t adds to its effects and to what it owes exactly what it calls for; those of other
      threads leave what it owes as it is. */
  ghost predicate PaysFor<S(!new), A(!new), E(!new)>(makes: (S, Move<A>, S, E) -> bool, owes: (S, nat) -> nat,
                                                     effect: E -> nat, calls: A -> nat, t: nat) {
    forall s, m, s1, e :: makes(s, m, s1, e) ==>
        owes(s1, t) + (if m.t == t then effect(e) else 0) == owes(s, t) + if m.t == t then calls(m.act) else 0
  }

  /** Then over any run a thread has exactly as many effects as calls, but for what it owes. */
  lemma {:induction false} EffectsCalled<S(!new), A(!new), E(!new)>(
      run: seq<S>, moves: seq<Move<A>>, events: seq<E>, makes: (S, Move<A>, S, E) -> bool, owes: (S, nat) -> nat,
      effect: E -> nat, calls: A -> nat, t: nat)
    requires Chain(run, moves, events, makes) && PaysFor(makes, owes, effect, calls, t)
    ensures EffectsBy(moves, events, effect, t) + owes(run[|moves|], t) == CountBy(moves, calls, t) + owes(run[0], t)
    decreases |moves|
  {
    if moves != [] {
      var k := |moves| - 1;
      ChainPrefix(run, moves, events, makes);
      EffectsCalled(run[..k + 1], moves[..k], events[..k], makes, owes, effect, calls, t);
    }
  }

  /** The same for all threads together. */
  lemma {:induction false} AllEffectsCalled<S(!new), A(!new), E(!new)>(
      run: seq<S>, moves: seq<Move<A>>, events: seq<E>, makes: (S, Move<A>, S, E) -> bool, owed: S -> nat,
      effect: E -> nat, calls: A -> nat)
    requires Chain(run, moves, events, makes)
    requires forall s, m, s1, e :: makes(s, m, s1, e) ==> owed(s1) + effect(e) == owed(s) + calls(m.act)
    ensures Effects(events, effect) + owed(run[|moves|]) == Count(moves, calls) + owed(run[0])
    decreases |moves|
  {
    if moves != [] {
      var k := |moves| - 1;
      ChainPrefix(run, moves, events, makes);
      AllEffectsCalled(run[..k + 1], moves[..k], events[..k], makes, owed, effect, calls);
    }
  }

  // ---------------------------------------------------------------------------------------------
  // Which call an answer belongs to

  datatype Maybe<T> = No | Yes(get: T)

  /** The call thread t is waiting for an answer to: its last one, unless that was answered since. */
  function Waiting<A, E, C>(moves: seq<Move<A>>, events: seq<E>, called: A -> Maybe<C>, answers: E -> bool, t: nat)
    : Maybe<C>
    requires |moves| == |events|
  {
    if moves == [] then No
    else
      var k := |moves| - 1;
      if moves[k].t != t then Waiting(moves[..k], events[..k], called, answers, t)
      else if called(moves[k].act).Yes? then called(moves[k].act)
      else if answers(events[k]) then No
      else Waiting(moves[..k], events[..k], called, answers, t)
  }

  /** Move m with event e, of a thread that waits for `waits`: it calls only when it waits for nothing, and an
      event that answers fits the call that waits. */
  ghost predicate Fits<A, E, C>(m: Move<A>, e: E, waits: Maybe<C>, called: A -> Maybe<C>, answers: E -> bool,
                                fits: (C, E) -> bool) {
    && (called(m.act).Yes? ==> waits.No? && !answers(e))
    && (answers(e) ==> waits.Yes? && fits(waits.get, e))
  }

  /** Every call is answered before the next one of its thread, and every answer is to the call its thread
      made last, and fits it. */
  ghost predicate Answered<A, E, C>(moves: seq<Move<A>>, events: seq<E>, called: A -> Maybe<C>, answers: E -> bool,
                                    fits: (C, E) -> bool) {
    && |moves| == |events|
    && forall k {:trigger moves[k]} :: 0 <= k < |moves| ==>
        Fits(moves[k], events[k], Waiting(moves[..k], events[..k], called, answers, moves[k].t), called, answers, fits)
  }

  /** A state says what each thread waits for, and moves change that as they should. */
  ghost predicate Tracks<S(!new), A(!new), E(!new), C(!new)>(
      makes: (S, Move<A>, S, E) -> bool, waits: (S, nat) -> Maybe<C>, called: A -> Maybe<C>, answers: E -> bool,
      fits: (C, E) -> bool) {
    forall s, m, s1, e :: makes(s, m, s1, e) ==>
        && Fits(m, e, waits(s, m.t), called, answers, fits)
        && (forall t :: t != m.t ==> waits(s1, t) == waits(s, t))
        && waits(s1, m.t) == if called(m.act).Yes? then called(m.act) else if answers(e) then No else waits(s, m.t)
  }

  lemma {:induction false} AllAnswered<S(!new), A(!new), E(!new), C(!new)>(
      run: seq<S>, moves: seq<Move<A>>, events: seq<E>, makes: (S, Move<A>, S, E) -> bool, waits: (S, nat) -> Maybe<C>,
      called: A -> Maybe<C>, answers: E -> bool, fits: (C, E) -> bool)
    requires Chain(run, moves, events, makes) && Tracks(makes, waits, called, answers, fits)
    requires forall t :: waits(run[0], t) == No
    ensures Answered(moves, events, called, answers, fits)
    ensures forall t :: waits(run[|moves|], t) == Waiting(moves, events, called, answers, t)
    decreases |moves|
  {
    if moves != [] {
      var k := |moves| - 1;
      ChainPrefix(run, moves, events, makes);
      AllAnswered(run[..k + 1], moves[..k], events[..k], makes, waits, called, answers, fits);
      assert makes(run[k], moves[k], run[k + 1], events[k]);
      forall i | 0 <= i < |moves|
        ensures Fits(moves[i], events[i], Waiting(moves[..i], events[..i], called, answers, moves[i].t), called,
                     answers, fits)
      {
        if i < k {
          assert moves[..k][i] == moves[i] && moves[..k][..i] == moves[..i] && events[..k][..i] == events[..i];
        }
      }
    }
  }
}
