/** What k-out-of-order means, and the counting argument behind every bound of the 2D framework. */
module Relaxation {

  datatype Option<+T> = None | Some(value: T)

  /** An item, with its place: the sub-structure it is in, its row there, and the window it was
      put in (the window's max for static windows, its position in the lateral for elastic ones). */
  datatype Item = Item(q: nat, row: nat, win: nat, val: int)

  function Without<T>(s: seq<T>, k: nat): seq<T>
    requires k < |s|
  {
    s[..k] + s[k + 1..]
  }

  lemma InWithout<T>(s: seq<T>, k: nat, y: T)
    requires k < |s| && y in s && y != s[k]
    ensures y in Without(s, k)
  {
    var a :| 0 <= a < |s| && s[a] == y;
    assert Without(s, k)[if a < k then a else a - 1] == y;
  }

  /** In a list of all items in the order they were put, the item at place k is taken out; exact
      FIFO is k = 0, and k counts the older items that are overtaken. */
  ghost predicate Takes(before: seq<Item>, k: nat, after: seq<Item>) {
    k < |before| && after == Without(before, k)
  }

  ghost predicate DistinctPlaces(s: seq<Item>) {
    forall a, b :: 0 <= a < b < |s| ==> s[a].q != s[b].q || s[a].row != s[b].row
  }

  lemma {:induction false} DistinctSize<T>(s: seq<T>, all: set<T>)
    requires forall a, b :: 0 <= a < b < |s| ==> s[a] != s[b]
    requires forall a :: 0 <= a < |s| ==> s[a] in all
    ensures |s| <= |all|
  {
    if s != [] {
      DistinctSize(s[1..], all - {s[0]});
    }
  }

  function Column(q: nat, low: nat, rows: nat): (c: set<(nat, nat)>)
    ensures forall p :: p in c <==> p.0 == q && low < p.1 <= low + rows
    ensures |c| == rows
  {
    if rows == 0 then {} else Column(q, low, rows - 1) + {(q, low + rows)}
  }

  function Cells(n: nat, rows: nat): nat {
    if n == 0 then 0 else Cells(n - 1, rows) + rows
  }

  lemma {:induction false} CellsProduct(n: nat, rows: nat)
    ensures Cells(n, rows) == rows * n
  {
    if n > 0 {
      CellsProduct(n - 1, rows);
      assert rows * n == rows * (n - 1) + rows;
    }
  }

  lemma AddColumn(rest: set<(nat, nat)>, q: nat, low: nat, rows: nat)
    requires forall p :: p in rest ==> p.0 != q
    ensures |rest + Column(q, low, rows)| == |rest| + rows
  {
    assert rest !! Column(q, low, rows);
  }

  /** The cells of a window area. */
  function Area(width: nat, low: nat, rows: nat): (c: set<(nat, nat)>)
    ensures forall p :: p in c <==> p.0 < width && low < p.1 <= low + rows
    ensures |c| == Cells(width, rows)
  {
    if width == 0 then {}
    else
      AddColumn(Area(width - 1, low, rows), width - 1, low, rows);
      Area(width - 1, low, rows) + Column(width - 1, low, rows)
  }

  lemma OtherColumns(width: nat, skip: nat, low: nat, rows: nat)
    requires skip < width
    ensures |Area(width, low, rows) - Column(skip, low, rows)| == rows * (width - 1)
  {
    var others := Area(width, low, rows) - Column(skip, low, rows);
    AddColumn(others, skip, low, rows);
    assert others + Column(skip, low, rows) == Area(width, low, rows);
    CellsProduct(width, rows);
    assert rows * width == rows * (width - 1) + rows;
  }

  /** Items in different places, all inside one window area and none in sub-structure skip, are at
      most rows * (width - 1). */
  lemma AreaBound(s: seq<Item>, width: nat, skip: nat, low: nat, rows: nat)
    requires skip < width && DistinctPlaces(s)
    requires forall a :: 0 <= a < |s| ==> s[a].q < width && s[a].q != skip && low < s[a].row <= low + rows
    ensures |s| <= rows * (width - 1)
  {
    var places := seq(|s|, a requires 0 <= a < |s| => (s[a].q, s[a].row));
    DistinctSize(places, Area(width, low, rows) - Column(skip, low, rows));
    OtherColumns(width, skip, low, rows);
  }

  function Times(m: nat, d: nat): nat { m * d }

  lemma TimesMonotone(m: nat, n: nat, d: nat)
    requires m <= n
    ensures Times(m, d) <= Times(n, d)
  {
    assert n * d == m * d + (n - m) * d;
  }

  ghost predicate Multiple(x: nat, d: nat) { exists m: nat :: x == Times(m, d) }

  lemma MultipleZero(d: nat)
    ensures Multiple(0, d) && Multiple(d, d)
  {
    assert 0 == Times(0, d) && d == Times(1, d);
  }

  lemma MultipleStep(x: nat, d: nat)
    requires Multiple(x, d)
    ensures Multiple(x + d, d)
  {
    var m: nat :| x == Times(m, d);
    assert x + d == Times(m + 1, d);
  }

  /** Two different multiples of d are at least d apart. */
  lemma MultiplesApart(x: nat, y: nat, d: nat)
    requires Multiple(x, d) && Multiple(y, d) && x < y
    ensures x + d <= y
  {
    var m: nat :| x == Times(m, d);
    var n: nat :| y == Times(n, d);
    if n <= m {
      TimesMonotone(n, m, d);
    } else {
      TimesMonotone(m + 1, n, d);
      assert Times(m + 1, d) == Times(m, d) + d;
    }
  }

  // ---------------------------------------------------------------------------------------------
  // Parameters from a requested bound

  function EffectiveWidth(kMode: nat, numThreads: nat, width: nat): nat {
    if kMode == 3 then numThreads * width else width
  }

  /** Whether the width and depth derived for a request leave the window at least one row. */
  predicate Usable(numThreads: nat, width: nat, depth: nat, kMode: nat, requested: nat) {
    if kMode == 1 || kMode == 3 then EffectiveWidth(kMode, numThreads, width) >= 2 || requested >= 1 else depth >= 1
  }

  lemma Division(x: nat, d: nat)
    requires d >= 1
    ensures d * (x / d) <= x < d * (x / d + 1)
  {
  }

  /** The quotient by rows * (width - 1) is the largest depth within the bound. */
  lemma DepthWithin(rows: nat, width: nat, bound: nat)
    requires rows >= 1 && width >= 2
    ensures rows * (width - 1) >= 1
    ensures var depth := bound / (rows * (width - 1));
            && rows * depth * (width - 1) <= bound < rows * (depth + 1) * (width - 1)
            && (depth >= 1 <==> rows * (width - 1) <= bound)
  {
    var d := rows * (width - 1);
    assert d >= 1;
    var depth := bound / d;
    Division(bound, d);
    assert rows * depth * (width - 1) == d * depth;
    assert rows * (depth + 1) * (width - 1) == d * (depth + 1);
    if depth == 0 { assert d * (depth + 1) == d; }
    if d <= bound && depth == 0 { assert false; }
    if bound < d && depth >= 1 { TimesMonotone(1, depth, d); }
  }

  /** The quotient by rows * depth, plus one, is the largest width within the bound. */
  lemma WidthWithin(rows: nat, depth: nat, bound: nat)
    requires rows >= 1 && depth >= 1
    ensures rows * depth >= 1
    ensures var width := bound / (rows * depth) + 1;
            rows * depth * (width - 1) <= bound < rows * depth * width
  {
    assert rows * depth >= 1;
    Division(bound, rows * depth);
  }

  /** The 2D bound of a width and depth does not exceed the stored relaxation bound. */
  ghost predicate WithinBound(rows: nat, width: nat, depth: nat, bound: nat) {
    width >= 1 && rows * depth * (width - 1) <= bound
  }

  /** One more unit of depth would exceed the request, when the width itself fits it. */
  ghost predicate Deepest(rows: nat, width0: nat, bound0: nat, width: nat, depth: nat) {
    width0 >= 2 && rows * (width0 - 1) <= bound0 ==> width == width0 && bound0 < rows * (depth + 1) * (width - 1)
  }

  /** When the width does not fit the request at all, the depth is 1 and one more unit of width would exceed
      the request. */
  ghost predicate Narrowest(rows: nat, width0: nat, bound0: nat, width: nat, depth: nat) {
    width0 >= 2 && bound0 < rows * (width0 - 1) ==> depth == 1 && bound0 < rows * width
  }

  /** What create_* derives: the width and depth given, or the depth given with the greatest width, or the width
      given with the greatest depth - or, if the request does not allow that width, depth 1 with the
      greatest width it does allow, or a single sub-structure as deep as the request. */
  ghost predicate Derived(rows: nat, numThreads: nat, width0: nat, depth0: nat, kMode: nat, bound0: nat, width: nat,
                          depth: nat, bound: nat) {
    && (kMode == 0 ==> width == width0 && depth == depth0 && bound == rows * depth0 * (width0 - 1))
    && (kMode == 2 ==> depth == depth0 && bound == bound0 && Widest(rows, bound0, width, depth))
    && (kMode == 1 || kMode == 3 ==>
         var w := EffectiveWidth(kMode, numThreads, width0);
         && Deepest(rows, w, bound0, width, depth) && Narrowest(rows, w, bound0, width, depth)
         && (w < 2 ==> width == 1 && depth == bound0 && bound == 0) && (w >= 2 ==> bound == bound0))
  }

  /** One more unit of width would exceed the request. */
  ghost predicate Widest(rows: nat, bound0: nat, width: nat, depth: nat) {
    bound0 < rows * depth * width
  }

  /** The branch for a given width: as deep as the bound allows, or else depth 1 and as wide as the
      bound allows, or a single sub-structure.  rows is the number of rows per unit of depth that
      the bound counts: 1 for the queue, 2 for the stack and the counter. */
  method ForWidth(rows: nat, width0: nat, bound0: nat) returns (width: nat, depth: nat, bound: nat)
    requires rows >= 1
    ensures WithinBound(rows, width, depth, bound) && Deepest(rows, width0, bound0, width, depth)
    ensures width0 < 2 ==> width == 1 && depth == bound0 && bound == 0
    ensures width0 >= 2 ==> bound == bound0
    ensures Narrowest(rows, width0, bound0, width, depth)
    ensures depth >= 1 <==> width0 >= 2 || bound0 >= 1
  {
    width, bound := width0, bound0;
    if width < 2 {
      width := 1;
      depth := bound;
      bound := 0;
    } else {
      DepthWithin(rows, width, bound);
      depth := bound / (rows * (width - 1));
      if depth < 1 {
        Division(bound, rows);
        depth := 1;
        width := bound / (rows * depth) + 1;
        assert rows * depth * (width - 1) == rows * (bound / rows);
        assert rows * width == rows * (bound / rows + 1);
      }
    }
  }

  /** The branch for a given depth: as wide as the bound allows. */
  method ForDepth(rows: nat, depth: nat, bound: nat) returns (width: nat)
    requires rows >= 1 && depth >= 1
    ensures WithinBound(rows, width, depth, bound) && Widest(rows, bound, width, depth)
  {
    WidthWithin(rows, depth, bound);
    width := bound / (rows * depth) + 1;
  }

  /** The choice of width, depth and bound at the head of create_queue, create_stack and
      create_counter. */
  method Parameters(rows: nat, numThreads: nat, width0: nat, depth0: nat, kMode: nat, bound0: nat)
    returns (width: nat, depth: nat, bound: nat)
    requires rows >= 1 && kMode <= 3
    requires kMode == 0 ==> width0 >= 1
    requires kMode == 2 ==> depth0 >= 1
    ensures WithinBound(rows, width, depth, bound)
    ensures Derived(rows, numThreads, width0, depth0, kMode, bound0, width, depth, bound)
    // the depth is at least 1 exactly unless a single sub-structure was asked to have bound 0
    ensures depth >= 1 <==> Usable(numThreads, width0, depth0, kMode, bound0)
  {
    width, depth, bound := width0, depth0, bound0;
    if kMode == 1 || kMode == 3 {
      width := EffectiveWidth(kMode, numThreads, width);
      width, depth, bound := ForWidth(rows, width, bound);
    } else if kMode == 2 {
      width := ForDepth(rows, depth, bound);
      DepthGiven(rows, numThreads, width0, depth0, bound0, width);
    } else {
      bound := BoundOf(rows, width, depth);
      BothGiven(rows, numThreads, width0, depth0, bound0);
    }
  }

  function BoundOf(rows: nat, width: nat, depth: nat): nat requires width >= 1 { rows * depth * (width - 1) }

  lemma DepthGiven(rows: nat, numThreads: nat, width0: nat, depth0: nat, bound0: nat, width: nat)
    requires Widest(rows, bound0, width, depth0)
    ensures Derived(rows, numThreads, width0, depth0, 2, bound0, width, depth0, bound0)
  {
  }

  lemma BothGiven(rows: nat, numThreads: nat, width0: nat, depth0: nat, bound0: nat)
    requires width0 >= 1
    ensures Derived(rows, numThreads, width0, depth0, 0, bound0, width0, depth0, BoundOf(rows, width0, depth0))
    ensures WithinBound(rows, width0, depth0, BoundOf(rows, width0, depth0))
  {
  }
}
