/** The 2D counter at operation level: increments go through the put window, decrements through the
    get window, and both answer with the count of one sub-counter scaled up. */
module Counter2D {
  import opened Relaxation
  import opened Window2Dd

  function Held(put: seq<nat>, get: seq<nat>, i: nat): int
    requires i < |put| && i < |get|
  {
    put[i] as int - get[i] as int
  }

  /** The true value: what all sub-counters hold together. */
  function Total(put: seq<nat>, get: seq<nat>): int
    requires |put| == |get|
  {
    if put == [] then 0
    else Total(put[..|put| - 1], get[..|get| - 1]) + Held(put, get, |put| - 1)
  }

  predicate Near(x: int, y: int, e: int) { x <= y + e && y <= x + e }

  ghost predicate Banded(put: seq<nat>, get: seq<nat>, putMax: nat, getMax: nat, depth: nat) {
    && |put| == |get|
    && (forall i :: 0 <= i < |put| ==> put[i] <= putMax <= put[i] + depth)
    && (forall i :: 0 <= i < |get| ==> get[i] <= getMax <= get[i] + depth)
  }

  /** Summing sub-counters that each differ from d by at most e. */
  lemma {:induction false} Deviation(put: seq<nat>, get: seq<nat>, skip: nat, d: int, e: nat)
    requires |put| == |get|
    requires forall j :: 0 <= j < |put| ==> Near(Held(put, get, j), d, e)
    requires skip < |put| ==> Held(put, get, skip) == d
    ensures var others := if skip < |put| then |put| - 1 else |put|;
            Near(Total(put, get), d * |put|, e * others)
  {
    if put != [] {
      var n := |put| - 1;
      assert forall j :: 0 <= j < n ==> Held(put[..n], get[..n], j) == Held(put, get, j);
      Deviation(put[..n], get[..n], skip, d, e);
      assert d * (n + 1) == d * n + d;
      var others := if skip < n then n - 1 else n;
      assert skip != n ==> e * (others + 1) == e * others + e;
    }
  }

  /** Scaling up any one sub-counter is off by at most 2 * depth * (width - 1). */
  lemma Accuracy(put: seq<nat>, get: seq<nat>, putMax: nat, getMax: nat, depth: nat, i: nat)
    requires Banded(put, get, putMax, getMax, depth) && i < |put|
    ensures Near(Total(put, get), Held(put, get, i) * |put|, 2 * depth * (|put| - 1))
  {
    var d := Held(put, get, i);
    forall j | 0 <= j < |put| ensures Near(Held(put, get, j), d, 2 * depth) {
      assert put[i] <= putMax <= put[i] + depth && get[i] <= getMax <= get[i] + depth;
    }
    Deviation(put, get, i, d, 2 * depth);
  }

  lemma {:induction false} TotalUpdate(put: seq<nat>, get: seq<nat>, put1: seq<nat>, get1: seq<nat>, i: nat)
    requires |put| == |get| == |put1| == |get1| && i < |put|
    requires forall j :: 0 <= j < |put| && j != i ==> put1[j] == put[j] && get1[j] == get[j]
    ensures Total(put1, get1) - Total(put, get) == Held(put1, get1, i) - Held(put, get, i)
  {
    var n := |put| - 1;
    if i < n {
      assert Held(put1, get1, n) == Held(put, get, n) && Held(put1[..n], get1[..n], i) == Held(put1, get1, i) &&
          Held(put[..n], get[..n], i) == Held(put, get, i);
      TotalUpdate(put[..n], get[..n], put1[..n], get1[..n], i);
    } else {
      assert put1[..n] == put[..n] && get1[..n] == get[..n];
    }
  }

  lemma {:induction false} TotalZero(put: seq<nat>, get: seq<nat>)
    requires |put| == |get| && forall j :: 0 <= j < |put| ==> get[j] <= put[j]
    ensures Total(put, get) >= 0
    ensures Total(put, get) == 0 <==> forall j :: 0 <= j < |put| ==> get[j] == put[j]
  {
    if put != [] {
      var n := |put| - 1;
      assert Held(put, get, n) >= 0;
      TotalZero(put[..n], get[..n]);
      assert forall j :: 0 <= j < n ==> put[..n][j] == put[j] && get[..n][j] == get[j];
    }
  }

  class Counter {
    const w: Windows
    const bound: nat

    ghost predicate Valid()
      reads this, w, w.put, w.get
    {
      w.Valid() && WithinBound(2, w.width, w.depth, bound)
    }

    ghost function Value(): int
      requires Valid()
      reads this, w, w.put, w.get
    {
      Total(w.put[..], w.get[..])
    }

    /** create_counter leaves the global windows at 0: the first operation has to shift. */
    constructor (numThreads: nat, width: nat, depth: nat, kMode: nat, requested: nat)
      requires kMode <= 3 && (kMode == 0 ==> width >= 1) && (kMode == 2 ==> depth >= 1)
      ensures w.depth >= 1 <==> Usable(numThreads, width, depth, kMode, requested)
      ensures w.depth >= 1 ==> Valid() && Value() == 0
      ensures fresh(w) && fresh(w.put) && fresh(w.get)
      ensures Derived(2, numThreads, width, depth, kMode, requested, w.width, w.depth, bound)
      ensures w.putMax == 0 && w.getMax == 0
    {
      var width', depth', bound' := Parameters(2, numThreads, width, depth, kMode, requested);
      w := new Windows(width', depth', 0);
      bound := bound';
      new;
      TotalZero(w.put[..], w.get[..]);
    }

    lemma Answer(i: nat)
      requires Valid() && i < w.width
      ensures Near(Value(), (w.put[i] - w.get[i]) * w.width, bound)
    {
      Accuracy(w.put[..], w.get[..], w.putMax, w.getMax, w.depth, i);
    }

    /** Counts one more, and answers within the bound of the true value. */
    method Increment(t: Locals) returns (estimate: int)
      requires Valid() && t.index < w.width
      modifies w`putMax, w.put, t
      ensures Valid() && t.index < w.width
      ensures Value() == old(Value()) + 1
      ensures Near(Value(), estimate, bound)
      // the thread's sub-counter has counted one more, and is the one scaled up
      ensures w.put[..] == old(w.put[..])[t.index := old(w.put[..])[t.index] + 1]
      ensures estimate == (w.put[t.index] - w.get[t.index]) * w.width
      ensures old(w.put[t.index] < w.putMax) ==> t.index == old(t.index)
      ensures w.putMax == if old(w.Full()) then old(w.putMax) + w.depth else old(w.putMax)
    {
      w.PutWindow(t, false);
      estimate := CountUp(t.index);
    }

    /** The put count of sub-counter i goes up by one; the answer scales that sub-counter up. */
    method CountUp(i: nat) returns (estimate: int)
      requires Valid() && i < w.width && w.put[i] < w.putMax
      modifies w.put
      ensures Valid() && Value() == old(Value()) + 1 && Near(Value(), estimate, bound)
      ensures w.put[..] == old(w.put[..])[i := old(w.put[..])[i] + 1] && estimate == (w.put[i] - w.get[i]) * w.width
    {
      ghost var put, get := w.put[..], w.get[..];
      w.put[i] := w.put[i] + 1;
      TotalUpdate(put, get, w.put[..], w.get[..], i);
      Answer(i);
      estimate := (w.put[i] - w.get[i]) * w.width;
    }

    method CountDown(i: nat) returns (estimate: int)
      requires Valid() && i < w.width && w.get[i] < w.getMax && w.get[i] < w.put[i]
      modifies w.get
      ensures Valid() && Value() == old(Value()) - 1 && Near(Value(), estimate, bound)
      ensures w.get[..] == old(w.get[..])[i := old(w.get[..])[i] + 1] && estimate == (w.put[i] - w.get[i]) * w.width
    {
      ghost var put, get := w.put[..], w.get[..];
      w.get[i] := w.get[i] + 1;
      TotalUpdate(put, get, w.put[..], w.get[..], i);
      Answer(i);
      estimate := (w.put[i] - w.get[i]) * w.width;
    }

    /** Counts one less unless the counter is at 0, and answers within the bound. */
    method Decrement(t: Locals) returns (estimate: int)
      requires Valid() && t.index < w.width
      modifies w`getMax, w.get, t
      ensures Valid() && t.index < w.width
      ensures Value() == if old(Value()) == 0 then 0 else old(Value()) - 1
      ensures Near(Value(), estimate, bound)
      // the thread's sub-counter has counted one less, unless all are at 0, and is the one scaled up
      ensures w.get[..] == if old(Value()) == 0 then old(w.get[..])
                           else old(w.get[..])[t.index := old(w.get[..])[t.index] + 1]
      ensures estimate == (w.put[t.index] - w.get[t.index]) * w.width
      ensures old(w.get[t.index] < w.getMax && w.put[t.index] != w.get[t.index]) ==> t.index == old(t.index)
      ensures w.getMax == if old(w.Drained()) && !old(w.Empty()) then old(w.getMax) + w.depth else old(w.getMax)
    {
      var found := Find(t);
      var i := t.index;
      if w.put[i] - w.get[i] > 0 {
        estimate := CountDown(i);
      } else {
        estimate := 0;
      }
    }

    /** The get window is searched; nothing is found exactly when the counter is at 0. */
    method Find(t: Locals) returns (found: bool)
      requires Valid() && t.index < w.width
      modifies w`getMax, t`getMax, t`index
      ensures Valid() && t.index < w.width && (found <==> Value() != 0)
      ensures if found then w.get[t.index] < w.getMax && w.get[t.index] < w.put[t.index]
              else w.get[t.index] == w.put[t.index]
      ensures old(w.get[t.index] < w.getMax && w.put[t.index] != w.get[t.index]) ==> t.index == old(t.index)
      ensures w.getMax == if old(w.Drained()) && !old(w.Empty()) then old(w.getMax) + w.depth else old(w.getMax)
    {
      TotalZero(w.put[..], w.get[..]);
      found := w.GetWindow(t, false);
    }

    /** counter_size adds up exactly. */
    method Size() returns (size: int)
      requires Valid()
      ensures size == Value()
    {
      size := 0;
      for i := 0 to w.width
        invariant size == Total(w.put[..i], w.get[..i])
      {
        size := size + (w.put[i] - w.get[i]);
        assert w.put[..i + 1][..i] == w.put[..i] && w.get[..i + 1][..i] == w.get[..i];
      }
      assert w.put[..w.width] == w.put[..] && w.get[..w.width] == w.get[..];
    }
  }
}
