/** The walk every window search makes over the sub-structures: a few random hops first, then hops in
    order, counted, until all of them have been passed. */
module Search {

  const RANDOM_HOPS: nat := 2   // set->random_hops

  /** After `hops` hops in order from `start`, the indices left behind. */
  predicate Passed(start: nat, hops: nat, width: nat, i: nat) {
    start <= i < start + hops || i + width < start + hops
  }

  function NextIndex(width: nat, index: nat): nat {
    if index + 1 >= width then 0 else index + 1
  }

  /** Where a pass that has come to index in so many hops has started. */
  function Start(width: nat, index: nat, hops: nat): nat {
    if hops <= index then index - hops else if hops - index <= width then index + width - hops else 0
  }

  /** Where a search is: random hops come first, then hops in order from start. */
  ghost predicate Walk(width: nat, randomHops: nat, start: nat, hops: nat, random: nat, index: nat) {
    && start < width && hops <= width && random <= randomHops && (hops > 0 ==> random == randomHops)
    && index == if start + hops < width then start + hops else start + hops - width
  }

  /** Once as many hops are counted as there are indices, every index has been passed. */
  lemma PassComplete(width: nat, start: nat)
    requires start < width
    ensures forall i: nat :: i < width ==> Passed(start, width, width, i)
  {
  }

  /** One hop.  Only the index it leaves is newly passed; a random hop starts the pass afresh. */
  method Hop(width: nat, randomHops: nat, index: nat, random: nat, hops: nat, ghost start: nat)
    returns (index': nat, random': nat, hops': nat, ghost start': nat)
    requires Walk(width, randomHops, start, hops, random, index) && hops != width
    ensures Walk(width, randomHops, start', hops', random', index')
    ensures random' == random + 1 || (random' == random && hops' == hops + 1)
    ensures forall i: nat :: i < width && Passed(start', hops', width, i) ==>
         i == index || Passed(start, hops, width, i)
  {
    index', random', hops', start' := index, random, hops, start;
    if random < randomHops {
      random' := random + 1;
      var r: nat :| r < width;
      index' := r;
      start' := r;
    } else {
      hops' := hops + 1;
      index' := NextIndex(width, index);
    }
  }
}
