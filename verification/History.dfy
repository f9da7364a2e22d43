/** What a run of a queue made of sub-queues shows: which values were linked to which sub-queue, which were
    taken from it, and where a dequeue ended that answered nothing. */
module History {

  datatype Event = Silent | Linked(i: nat, v: int) | Taken(j: nat, w: int) | Empty(k: nat)

  /** What a thread may have called, and which events answer it. */
  datatype Call = Enq(val: int) | Deq

  predicate IsAnswer(e: Event) { !e.Silent? }

  predicate Answering(c: Call, e: Event) {
    match c
    case Enq(v) => e.Linked? && e.v == v
    case Deq => e.Taken? || e.Empty?
  }

  /** The values linked to, or taken from, sub-queue i, in order. */
  function LinkedIn(events: seq<Event>, i: nat): seq<int> {
    if events == [] then []
    else
      var e := events[|events| - 1];
      LinkedIn(events[..|events| - 1], i) + if e.Linked? && e.i == i then [e.v] else []
  }

  function TakenIn(events: seq<Event>, i: nat): seq<int> {
    if events == [] then []
    else
      var e := events[|events| - 1];
      TakenIn(events[..|events| - 1], i) + if e.Taken? && e.j == i then [e.w] else []
  }

  /** The list of a sub-queue, a dummy in front, holds what was linked, and its get node stands after what
      was taken. */
  ghost predicate Explains(events: seq<Event>, i: nat, list: seq<int>, get: nat) {
    get < |list| && list == [0] + LinkedIn(events, i) && TakenIn(events, i) == LinkedIn(events, i)[..get]
  }

  /** An event tells what happened to the list and the get node of sub-queue i. */
  ghost predicate Tells(e: Event, i: nat, list: seq<int>, get: nat, list1: seq<int>, get1: nat) {
    && list1 == list + (if e.Linked? && e.i == i then [e.v] else [])
    && get1 == get + (if e.Taken? && e.j == i then 1 else 0)
    && (e.Taken? && e.j == i ==> get + 1 < |list| && e.w == list[get + 1])
  }

  lemma ExplainsOn(events: seq<Event>, e: Event, i: nat, list: seq<int>, get: nat, list1: seq<int>, get1: nat)
    requires Explains(events, i, list, get) && Tells(e, i, list, get, list1, get1)
    ensures Explains(events + [e], i, list1, get1)
  {
    assert (events + [e])[..|events|] == events;
    var linked := LinkedIn(events, i);
    if e.Taken? && e.j == i {
      assert linked[..get + 1] == linked[..get] + [linked[get]];
    }
  }
}
