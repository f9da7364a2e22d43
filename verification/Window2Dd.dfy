/** The put and get windows of the decoupled designs (queue and counter), at operation level: one
    search runs without interference, from any starting index, any window a thread may still hold,
    and any random hops. */
module Window2Dd {
  import opened Relaxation
  import opened Search

  /** thread_PWindow, thread_GWindow and thread_index. */
  class Locals {
    var putMax: nat
    var getMax: nat
    var index: nat
    constructor ()
      ensures putMax == 0 && getMax == 0 && index == 0
    {
      putMax, getMax, index := 0, 0, 0;
    }
  }

  class Windows {
    const width: nat
    const depth: nat
    const randomHops: nat
    const put: array<nat>   // put_count of each sub-structure
    const get: array<nat>   // get_count of each sub-structure
    var putMax: nat         // global_PWindow
    var getMax: nat         // global_GWindow

    ghost predicate Valid()
      reads this, put, get
    {
      && width >= 1 && depth >= 1
      && put.Length == width && get.Length == width && put != get
      && Multiple(putMax, depth) && Multiple(getMax, depth) && getMax <= putMax
      && (forall i :: 0 <= i < width ==> get[i] <= put[i])
      && (forall i :: 0 <= i < width ==> put[i] <= putMax <= put[i] + depth)
      && (forall i :: 0 <= i < width ==> get[i] <= getMax <= get[i] + depth)
    }

    /** Both windows at max; create_queue starts them at depth, the counter leaves them at 0. */
    constructor (width: nat, depth: nat, max: nat)
      requires width >= 1 && (max == 0 || max == depth)
      ensures depth >= 1 ==> Valid()
      ensures fresh(put) && fresh(get) && put != get && put.Length == width && get.Length == width
      ensures this.width == width && this.depth == depth && putMax == max && getMax == max
      ensures randomHops == RANDOM_HOPS
      ensures forall i :: 0 <= i < width ==> put[i] == 0 && get[i] == 0
    {
      this.width, this.depth, this.randomHops := width, depth, RANDOM_HOPS;
      this.put := new nat[width](_ => 0);
      this.get := new nat[width](_ => 0);
      this.putMax, this.getMax := max, max;
      MultipleZero(depth);
    }

    ghost predicate Full() reads this, put, get requires Valid() {
      forall i :: 0 <= i < width ==> put[i] == putMax
    }

    /** No sub-structure has anything left inside the get window. */
    ghost predicate Drained() reads this, put, get requires Valid() {
      forall i :: 0 <= i < width ==> get[i] == getMax || get[i] == put[i]
    }

    /** The sub-structures left behind by a pass were all full, drained, or empty. */
    ghost predicate PassedFull(start: nat, hops: nat) reads this, put, get requires Valid() {
      forall i: nat :: i < width && Passed(start, hops, width, i) ==> put[i] == putMax
    }

    ghost predicate PassedDrained(start: nat, hops: nat) reads this, put, get requires Valid() {
      forall i: nat :: i < width && Passed(start, hops, width, i) ==> get[i] == getMax || get[i] == put[i]
    }

    ghost predicate PassedEmpty(start: nat, hops: nat) reads this, put, get requires Valid() {
      forall i: nat :: i < width && Passed(start, hops, width, i) ==> get[i] == put[i]
    }

    ghost predicate Empty() reads this, put, get requires Valid() {
      forall i :: 0 <= i < width ==> get[i] == put[i]
    }

    method ShiftPut(t: Locals)
      requires Valid() && Full() && t.putMax == putMax
      modifies this`putMax, t`putMax
      ensures Valid() && putMax == old(putMax) + depth && t.putMax == putMax
    {
      MultipleStep(putMax, depth);
      putMax := t.putMax + depth;
      t.putMax := putMax;
    }

    /** The get window follows only when there is something above it, so it cannot overtake. */
    method ShiftGet(t: Locals)
      requires Valid() && Drained() && !Empty() && t.getMax == getMax
      modifies this`getMax, t`getMax
      ensures Valid() && getMax == old(getMax) + depth && t.getMax == getMax
      ensures !Empty() && !Drained()
    {
      ghost var i :| 0 <= i < width && get[i] != put[i];
      MultiplesApart(getMax, putMax, depth);
      MultipleStep(getMax, depth);
      getMax := t.getMax + depth;
      t.getMax := getMax;
      assert get[i] != getMax;
    }

    /** One pass of the put search: it stops at a sub-structure below the window's max, at once if the
        thread is at one, or else it has passed them all and all are full. */
    method PutPass(t: Locals, random0: nat) returns (found: bool, random: nat)
      requires Valid() && t.index < width && random0 <= randomHops
      modifies t`index
      ensures t.index < width && random <= randomHops
      ensures found ==> put[t.index] < putMax
      ensures !found ==> Full()
      ensures old(put[t.index] < putMax) ==> found && t.index == old(t.index)
    {
      var hops: nat := 0;
      random := random0;
      ghost var start: nat := t.index;
      while put[t.index] >= putMax
        invariant old(put[t.index] < putMax) ==> t.index == old(t.index)
        invariant t.index < width && Walk(width, randomHops, start, hops, random, t.index) && PassedFull(start, hops)
        decreases randomHops - random, width - hops
      {
        if hops == width {
          PassComplete(width, start);
          return false, random;
        }
        t.index, random, hops, start := Hop(width, randomHops, t.index, random, hops, start);
      }
      return true, random;
    }

    /** The window moves by one depth exactly when every sub-structure is full, and at most once;
        the search always ends at a sub-structure that may take another item. */
    method PutWindow(t: Locals, contention: bool)
      requires Valid() && t.index < width
      modifies this`putMax, t`putMax, t`index
      ensures Valid() && t.index < width && t.putMax == putMax
      ensures putMax == if old(Full()) then old(putMax) + depth else old(putMax)
      ensures put[t.index] < putMax
      ensures !contention && old(put[t.index] < putMax) ==> t.index == old(t.index)
    {
      if contention {
        var r :| 0 <= r < width;
        t.index := r;
      }
      if t.putMax != putMax {
        t.putMax := putMax;
      }
      var found, random: nat := false, 0;
      found, random := PutPass(t, random);
      while !found
        invariant Valid() && t.index < width && t.putMax == putMax && random <= randomHops
        invariant if found then put[t.index] < putMax else Full()
        invariant putMax == old(putMax) || (old(Full()) && putMax == old(putMax) + depth && found)
        invariant !contention && old(put[t.index] < putMax) ==> found && t.index == old(t.index)
        decreases !found
      {
        ShiftPut(t);
        found, random := PutPass(t, random);
      }
    }

    /** One pass of the get search: it stops at a sub-structure with an item inside the window, or
        else it has passed them all and knows whether any had items. */
    method GetPass(t: Locals, random0: nat) returns (found: bool, notempty: bool, random: nat)
      requires Valid() && t.index < width && random0 <= randomHops
      modifies t`index
      ensures t.index < width && random <= randomHops
      ensures found ==> get[t.index] < getMax && get[t.index] < put[t.index]
      ensures !found ==> Drained() && (notempty <==> !Empty())
      ensures old(get[t.index] < getMax && put[t.index] != get[t.index]) ==> found && t.index == old(t.index)
    {
      var hops: nat := 0;
      random, notempty := random0, false;
      ghost var start: nat := t.index;
      while !(get[t.index] < getMax && put[t.index] != get[t.index])
        invariant old(get[t.index] < getMax && put[t.index] != get[t.index]) ==> t.index == old(t.index)
        invariant t.index < width && Walk(width, randomHops, start, hops, random, t.index)
        invariant PassedDrained(start, hops) && (!notempty ==> PassedEmpty(start, hops)) && (notempty ==> !Empty())
        decreases randomHops - random, width - hops
      {
        if hops == width {
          PassComplete(width, start);
          return false, notempty, random;
        }
        if !notempty && put[t.index] != get[t.index] {
          notempty := true;
        }
        t.index, random, hops, start := Hop(width, randomHops, t.index, random, hops, start);
      }
      return true, notempty, random;
    }

    method SyncGet(t: Locals, contention: bool)
      requires Valid() && t.index < width
      modifies t`getMax, t`index
      ensures t.index < width && t.getMax == getMax && (!contention ==> t.index == old(t.index))
    {
      t.getMax := getMax;
      if contention {
        var r :| 0 <= r < width;
        t.index := r;
      }
    }

    /** The search finds a sub-structure with an item inside the get window, which moves by one
        depth exactly when no item is left in it but some item is above it; it reports empty exactly
        when every sub-structure is empty. */
    method GetWindow(t: Locals, contention: bool) returns (found: bool)
      requires Valid() && t.index < width
      modifies this`getMax, t`getMax, t`index
      ensures Valid() && t.index < width && t.getMax == getMax
      ensures found <==> !old(Empty())
      ensures getMax == if old(Drained()) && !old(Empty()) then old(getMax) + depth else old(getMax)
      ensures found ==> get[t.index] < getMax && get[t.index] < put[t.index]
      ensures !found ==> get[t.index] == put[t.index]
      ensures !contention && old(get[t.index] < getMax && put[t.index] != get[t.index]) ==> t.index == old(t.index)
    {
      SyncGet(t, contention);
      var notempty, random: nat := false, 0;
      found, notempty, random := GetPass(t, random);
      while !found && notempty
        invariant Valid() && t.index < width && t.getMax == getMax && random <= randomHops
        invariant found ==> get[t.index] < getMax && get[t.index] < put[t.index]
        invariant !found ==> Drained() && (notempty <==> !Empty())
        invariant getMax == old(getMax) || (old(Drained()) && !old(Empty()) && getMax == old(getMax) + depth && found)
        invariant !contention && old(get[t.index] < getMax && put[t.index] != get[t.index]) ==>
             found && t.index == old(t.index)
        decreases !found
      {
        ShiftGet(t);
        found, notempty, random := GetPass(t, random);
      }
    }
  }
}
