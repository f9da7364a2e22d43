/** The lateral of the elastic 2Dc stack: a linked list saying how wide the stack is, row by row.  It
    is rewritten once per window, sharing what need not change, and published with one CAS.  Nodes
    are never changed after they were created, so a node is a value; `id` is its address. */
module LateralStack {
  import opened Relaxation

  datatype Node = Nil | Node(id: nat, width: nat, nextCount: nat, next: Node)

  /** The fields of the thread's window the lateral reads; lastShift may be anything. */
  datatype Window = Window(max: nat, depth: nat, putWidth: nat, oldPutWidth: nat, version: nat, lastShift: nat)

  /** The topmost row and width of a lateral node. */
  datatype Lat = Lat(row: nat, width: nat)

  ghost predicate WindowOk(win: Window) { 1 <= win.depth <= win.max }

  /** lower_narrower_count and push_narrower_count: the row just above the window's bottom. */
  function Low(win: Window): nat requires WindowOk(win) { win.max - win.depth + 1 }

  /** lateral_nextcount. */
  function NewCount(win: Window, count: nat, width: nat): nat
    requires WindowOk(win)
  {
    if width > win.putWidth && win.lastShift != 0 then
      var lastBottom := win.max - win.depth / 2;
      if lastBottom < count then lastBottom else count
    else if width <= win.putWidth && count > Low(win) then Low(win)
    else count
  }

  /** Nothing put to the window is above its bottom row in a node as narrow as the window, and nothing is above
      the last bottom in a wider one if the window moved down last; each node goes down just as far. */
  lemma NewCountExact(win: Window, count: nat, width: nat)
    requires WindowOk(win)
    ensures width > win.putWidth && win.lastShift == 0 ==> NewCount(win, count, width) == count
    ensures width > win.putWidth && win.lastShift != 0 ==>
        IsLeast(NewCount(win, count, width), count, win.max - win.depth / 2)
    ensures width <= win.putWidth ==> IsLeast(NewCount(win, count, width), count, win.max - win.depth + 1)
  {
  }

  predicate IsLeast(x: int, a: int, b: int) { x <= a && x <= b && (x == a || x == b) }

  lemma NewCountLowers(win: Window, count: nat, width: nat)
    requires WindowOk(win)
    ensures NewCount(win, count, width) <= count
    ensures count >= Low(win) ==> Low(win) <= NewCount(win, count, width)
    ensures count >= Low(win) && width <= win.putWidth ==> NewCount(win, count, width) == Low(win)
  {
  }

  // ---------------------------------------------------------------------------------------------
  // The list and its rewrite

  /** Rows fall strictly down to the sentinel, the last node, whose row is 0. */
  ghost predicate Listed(node: Node, count: nat) {
    && node.Node?
    && if node.next.Nil? then count == 0 && node.nextCount == 0
       else node.nextCount < count && Listed(node.next, node.nextCount)
  }

  /** Later nodes are put on top, so addresses fall too; all are below bound. */
  ghost predicate Descending(node: Node, bound: nat) {
    node.Node? ==> node.id < bound && Descending(node.next, node.id)
  }

  function Rows(node: Node, count: nat): seq<Lat> {
    if node.Nil? then [] else [Lat(count, node.width)] + Rows(node.next, node.nextCount)
  }

  ghost function Ids(node: Node): set<nat> {
    if node.Nil? then {} else {node.id} + Ids(node.next)
  }

  /** The addresses free_nodes_until frees. */
  ghost function Until(node: Node, base: Node): set<nat> {
    if node == base || node.Nil? then {} else {node.id} + Until(node.next, base)
  }

  ghost predicate HasSuffix(node: Node, base: Node) {
    node == base || (node.Node? && HasSuffix(node.next, base))
  }

  /** replace_lateral_node's result; nextId is the address the allocator gives next. */
  datatype Update = Update(count: nat, node: Node, base: Node, nextId: nat)

  function Replace(win: Window, node: Node, count: nat, nextId: nat): Update
    requires WindowOk(win) && Listed(node, count)
    decreases node
  {
    if count < Low(win) then Update(count, node, node, nextId)
    else
      var next := Replace(win, node.next, node.nextCount, nextId);
      var newCount := NewCount(win, count, node.width);
      var same := next.node == node.next && next.count == node.nextCount;
      if same && newCount == count then Update(count, node, node, next.nextId)
      else if same && newCount <= node.nextCount then next
      else if same && newCount < count then Update(newCount, node, node, next.nextId)
      else if newCount <= node.nextCount then next
      else Update(newCount, Node(next.nextId, node.width, next.count, next.node), next.base, next.nextId + 1)
  }

  // ---------------------------------------------------------------------------------------------
  // What the rewrite means

  ghost predicate Falling(s: seq<Lat>) {
    forall a, b :: 0 <= a < b < |s| ==> s[a].row > s[b].row
  }

  /** The rewrite without sharing: from the window's bottom up, each node goes to its new row, and is
      dropped if that leaves it nothing above the old row of the next node. */
  function Lowered(win: Window, s: seq<Lat>): seq<Lat>
    requires WindowOk(win)
  {
    if s == [] || s[0].row < Low(win) then s
    else
      var row := NewCount(win, s[0].row, s[0].width);
      (if |s| > 1 && row <= s[1].row then [] else [Lat(row, s[0].width)]) + Lowered(win, s[1..])
  }

  lemma RowsTail(node: Node, count: nat)
    requires Listed(node, count)
    ensures var s := Rows(node, count);
            && |s| >= 1 && s[0] == Lat(count, node.width) && s[1..] == Rows(node.next, node.nextCount)
            && (node.next.Node? ==> |s| > 1 && s[1].row == node.nextCount)
  {
  }

  /** Sharing changes nothing: the rewritten list is well formed, no row is raised, and its rows are
      exactly those of the rewrite without sharing. */
  lemma {:induction false} ReplaceRefines(win: Window, node: Node, count: nat, nextId: nat)
    requires WindowOk(win) && Listed(node, count)
    ensures var u := Replace(win, node, count, nextId);
            Listed(u.node, u.count) && u.count <= count && Rows(u.node, u.count) == Lowered(win, Rows(node, count))
    decreases node
  {
    RowsTail(node, count);
    if count >= Low(win) {
      ReplaceRefines(win, node.next, node.nextCount, nextId);
      NewCountLowers(win, count, node.width);
      var next := Replace(win, node.next, node.nextCount, nextId);
      var s := Rows(node, count);
      var row := NewCount(win, count, node.width);
      assert Lowered(win, s) == (if row <= s[1].row then [] else [Lat(row, node.width)]) + Lowered(win, s[1..]);
    }
  }

  /** Each kept node comes from one further down the old list, keeps its width, and is at its new row. */
  ghost predicate From(win: Window, s: seq<Lat>, a: nat, y: Lat) requires WindowOk(win) {
    a < |s| && y.width == s[a].width && y.row == if s[a].row < Low(win) then s[a].row
        else NewCount(win, s[a].row, s[a].width)
  }

  lemma {:induction false} LoweredFrom(win: Window, s: seq<Lat>, j: nat) returns (a: nat)
    requires WindowOk(win) && Falling(s) && j < |Lowered(win, s)|
    ensures From(win, s, a, Lowered(win, s)[j]) && Lowered(win, s)[j].row <= s[a].row
    decreases s
  {
    if s[0].row < Low(win) {
      a := j;
    } else {
      NewCountLowers(win, s[0].row, s[0].width);
      var row := NewCount(win, s[0].row, s[0].width);
      var kept := if |s| > 1 && row <= s[1].row then 0 else 1;
      if j < kept {
        a := 0;
      } else {
        var rest := LoweredFrom(win, s[1..], j - kept);
        a := rest + 1;
      }
    }
  }

  lemma {:induction false} LoweredFalls(win: Window, s: seq<Lat>)
    requires WindowOk(win) && Falling(s)
    ensures Falling(Lowered(win, s))
    decreases s
  {
    if s != [] && s[0].row >= Low(win) {
      LoweredFalls(win, s[1..]);
      var row := NewCount(win, s[0].row, s[0].width);
      var rest := Lowered(win, s[1..]);
      if !(|s| > 1 && row <= s[1].row) {
        forall j | 0 <= j < |rest| ensures rest[j].row < row {
          var a := LoweredFrom(win, s[1..], j);
          assert a > 0 ==> s[1..][0].row > s[1..][a].row;
        }
      }
    }
  }

  /** Every node left above the row over the window's bottom is wider than the put width. */
  ghost predicate WideAbove(win: Window, s: seq<Lat>) requires WindowOk(win) {
    forall j :: 0 <= j < |s| && s[j].row > Low(win) ==> s[j].width > win.putWidth
  }

  lemma LoweredWide(win: Window, s: seq<Lat>)
    requires WindowOk(win) && Falling(s)
    ensures WideAbove(win, Lowered(win, s))
  {
    forall j | 0 <= j < |Lowered(win, s)| && Lowered(win, s)[j].row > Low(win)
      ensures Lowered(win, s)[j].width > win.putWidth
    {
      var a := LoweredFrom(win, s, j);
      NewCountLowers(win, s[a].row, s[a].width);
    }
  }

  /** Node a is the one row r lies under: the lowest whose row is at least r. */
  ghost predicate Covers(s: seq<Lat>, a: nat, r: nat) {
    a < |s| && r <= s[a].row && (a + 1 < |s| ==> s[a + 1].row < r)
  }

  /** A row keeps its width unless the node over it was lowered below it. */
  lemma {:induction false} WidthKept(win: Window, s: seq<Lat>, a: nat, r: nat) returns (j: nat)
    requires WindowOk(win) && Falling(s) && Covers(s, a, r)
    requires s[a].row >= Low(win) ==> r <= NewCount(win, s[a].row, s[a].width)
    ensures Covers(Lowered(win, s), j, r) && Lowered(win, s)[j].width == s[a].width
    decreases s
  {
    if s[0].row < Low(win) {
      j := a;
    } else {
      var row := NewCount(win, s[0].row, s[0].width);
      var rest := Lowered(win, s[1..]);
      if a > 0 {
        j := WidthKept(win, s[1..], a - 1, r);
        if !(|s| > 1 && row <= s[1].row) { j := j + 1; }
      } else {
        j := 0;
        if rest != [] {
          var b := LoweredFrom(win, s[1..], 0);
          assert b > 0 ==> s[1..][0].row > s[1..][b].row;
        }
      }
    }
  }

  // ---------------------------------------------------------------------------------------------
  // Sharing

  lemma {:induction false} SuffixIds(node: Node, base: Node, bound: nat)
    requires HasSuffix(node, base) && Descending(node, bound)
    ensures Ids(node) == Until(node, base) + Ids(base) && Until(node, base) !! Ids(base)
    ensures Descending(base, bound) && forall x :: x in Ids(node) ==> x < bound
    ensures base.Node? ==> forall x :: x in Until(node, base) ==> x > base.id
    decreases node
  {
    if node != base {
      SuffixIds(node.next, base, node.id);
      IdsBelow(base, node.id);
      DescendingMore(base, node.id, bound);
    } else {
      IdsBelow(node, bound);
    }
  }

  lemma {:induction false} IdsBelow(node: Node, bound: nat)
    requires Descending(node, bound)
    ensures forall x :: x in Ids(node) ==> x < bound
    decreases node
  {
    if node.Node? { IdsBelow(node.next, node.id); }
  }

  lemma DescendingMore(node: Node, low: nat, high: nat)
    requires Descending(node, low) && low <= high
    ensures Descending(node, high)
  {
  }

  /** Old and new list share precisely the part from the base on: above it the new one has exactly the
      nodes allocated on the way, and none of the old. */
  ghost predicate Shares(u: Update, node: Node, nextId: nat) {
    && HasSuffix(node, u.base) && HasSuffix(u.node, u.base) && nextId <= u.nextId
    && (forall x: nat :: x in Until(u.node, u.base) <==> nextId <= x < u.nextId)
    && Descending(u.node, u.nextId)
  }

  lemma {:induction false} ReplaceShares(win: Window, node: Node, count: nat, nextId: nat)
    requires WindowOk(win) && Listed(node, count) && Descending(node, nextId)
    ensures Shares(Replace(win, node, count, nextId), node, nextId)
    ensures var u := Replace(win, node, count, nextId); u.node == node ==> u.base == node && u.nextId == nextId
    decreases node
  {
    if count >= Low(win) {
      DescendingMore(node.next, node.id, nextId);
      ReplaceShares(win, node.next, node.nextCount, nextId);
      var next := Replace(win, node.next, node.nextCount, nextId);
      var u := Replace(win, node, count, nextId);
      DescendingMore(next.node, next.nextId, next.nextId + 1);
      IdsBelow(next.node, next.nextId);
      SuffixIds(node.next, next.base, node.id);
      assert next.node != next.base ==> next.node.id in Until(next.node, next.base);
    }
  }

  // ---------------------------------------------------------------------------------------------
  // One window's update: rewrite, then perhaps push the old width

  function Push(u: Update, count: nat, width: nat): Update {
    Update(count, Node(u.nextId, width, u.count, u.node), u.base, u.nextId + 1)
  }

  /** maybe_push_lateral; upper bounds where items can still be above the new width. */
  function MaybePush(win: Window, u: Update, upper: nat): Update
    requires WindowOk(win)
  {
    if win.putWidth > win.oldPutWidth && u.count < Low(win) then Push(u, Low(win), win.oldPutWidth)
    else if win.putWidth < win.oldPutWidth && u.count < upper then Push(u, upper, win.oldPutWidth)
    else u
  }

  function NewTop(win: Window, s: seq<Lat>, upper: nat): seq<Lat>
    requires WindowOk(win) && s != []
  {
    if win.putWidth > win.oldPutWidth && s[0].row < Low(win) then [Lat(Low(win), win.oldPutWidth)] + s
    else if win.putWidth < win.oldPutWidth && s[0].row < upper then [Lat(upper, win.oldPutWidth)] + s
    else s
  }

  function NewLateral(win: Window, node: Node, count: nat, nextId: nat, upper: nat): Update
    requires WindowOk(win) && Listed(node, count)
  {
    MaybePush(win, Replace(win, node, count, nextId), upper)
  }

  lemma {:induction false} ListedFalls(node: Node, count: nat)
    requires Listed(node, count)
    ensures var s := Rows(node, count); Falling(s) && s != [] && s[0].row == count && s[|s| - 1].row == 0
    decreases node
  {
    RowsTail(node, count);
    if node.next.Node? {
      ListedFalls(node.next, node.nextCount);
      var s := Rows(node, count);
      assert forall b :: 0 < b < |s| ==> s[b] == s[1..][b - 1];
    }
  }

  lemma TopWide(win: Window, s: seq<Lat>, upper: nat)
    requires WindowOk(win) && s != [] && WideAbove(win, s)
    ensures WideAbove(win, NewTop(win, s, upper))
  {
    var t := NewTop(win, s, upper);
    if t != s { assert t[1..] == s; }
  }

  /** The width the lateral gives for row r: that of the lowest node whose row is at least r. */
  function WidthAt(s: seq<Lat>, r: nat): nat {
    if s == [] then 0 else if |s| == 1 || s[1].row < r then s[0].width else WidthAt(s[1..], r)
  }

  /** It is the width of the node that covers the row. */
  lemma {:induction false} WidthCovers(s: seq<Lat>, a: nat, r: nat)
    requires Falling(s) && Covers(s, a, r)
    ensures WidthAt(s, r) == s[a].width
    decreases s
  {
    if a > 0 { WidthCovers(s[1..], a - 1, r); }
  }

  lemma {:induction false} WidthFrom(s: seq<Lat>, r: nat) returns (x: Lat)
    requires s != [] && r <= s[0].row
    ensures x in s && r <= x.row && x.width == WidthAt(s, r)
    decreases s
  {
    if |s| == 1 || s[1].row < r { x := s[0]; } else { x := WidthFrom(s[1..], r); }
  }

  /** Where the window changes width, s says what it has to: up to the row over the bottom of a window that gets
      wider, and up to the highest item of the sub-stacks that one getting narrower leaves behind, rows
      not in t are as wide as the window was before.  Nothing else is added to t. */
  ghost predicate Recorded(win: Window, counts: seq<nat>, t: seq<Lat>, s: seq<Lat>) requires WindowOk(win) {
    && t != [] && s != [] && s[0].row >= t[0].row
    && (win.putWidth == win.oldPutWidth ==> s == t)
    && (win.putWidth > win.oldPutWidth ==> IsGreatest(s[0].row, t[0].row, win.max - win.depth + 1))
    && (win.putWidth < win.oldPutWidth ==>
         && (forall i :: win.putWidth <= i < win.oldPutWidth && i < |counts| ==> counts[i] <= s[0].row)
         && (s[0].row == t[0].row ||
             exists i :: win.putWidth <= i < win.oldPutWidth && i < |counts| && counts[i] == s[0].row))
    && forall r: nat :: r <= s[0].row ==> WidthAt(s, r) == if r <= t[0].row then WidthAt(t, r) else win.oldPutWidth
  }

  predicate IsGreatest(x: int, a: int, b: int) { a <= x && b <= x && (x == a || x == b) }

  ghost predicate IsHighest(win: Window, counts: seq<nat>, upper: nat) {
    && (forall i :: win.putWidth <= i < win.oldPutWidth && i < |counts| ==> counts[i] <= upper)
    && (upper == 0 || exists i :: win.putWidth <= i < win.oldPutWidth && i < |counts| && counts[i] == upper)
  }

  lemma TopRecords(win: Window, counts: seq<nat>, t: seq<Lat>, upper: nat)
    requires WindowOk(win) && t != [] && Falling(t)
    requires win.putWidth < win.oldPutWidth ==> IsHighest(win, counts, upper)
    ensures Recorded(win, counts, t, NewTop(win, t, upper))
  {
    var s := NewTop(win, t, upper);
    if s != t {
      assert s[1..] == t;
      forall r: nat | r <= s[0].row ensures WidthAt(s, r) == if r <= t[0].row then WidthAt(t, r) else win.oldPutWidth {}
    }
  }

  lemma PushMeans(win: Window, u: Update, upper: nat)
    requires WindowOk(win) && Listed(u.node, u.count)
    ensures var v := MaybePush(win, u, upper);
            Listed(v.node, v.count) && Rows(u.node, u.count) != [] &&
                Rows(v.node, v.count) == NewTop(win, Rows(u.node, u.count), upper)
  {
    RowsTail(u.node, u.count);
    var v := MaybePush(win, u, upper);
    RowsTail(v.node, v.count);
  }

  /** After the update rows still fall strictly to the sentinel, all nodes above the row over the
      bottom are wider than the put width, and below a pushed top the rows are the lowered ones. */
  lemma UpdateMeans(win: Window, node: Node, count: nat, nextId: nat, upper: nat)
    requires WindowOk(win) && Listed(node, count)
    ensures var u, t := NewLateral(win, node, count, nextId, upper), Lowered(win, Rows(node, count));
            && Listed(u.node, u.count) && t != [] && Rows(u.node, u.count) == NewTop(win, t, upper)
            && Falling(Rows(u.node, u.count)) && WideAbove(win, Rows(u.node, u.count))
  {
    ReplaceRefines(win, node, count, nextId);
    PushMeans(win, Replace(win, node, count, nextId), upper);
    ListedFalls(node, count);
    LoweredWide(win, Rows(node, count));
    TopWide(win, Lowered(win, Rows(node, count)), upper);
    var u := NewLateral(win, node, count, nextId, upper);
    ListedFalls(u.node, u.count);
  }

  /** The update records the change of width, given the counts of the sub-stacks. */
  lemma UpdateRecords(win: Window, node: Node, count: nat, nextId: nat, counts: seq<nat>, upper: nat)
    requires WindowOk(win) && Listed(node, count) && (win.putWidth < win.oldPutWidth ==> IsHighest(win, counts, upper))
    ensures var u := NewLateral(win, node, count, nextId, upper);
            Recorded(win, counts, Lowered(win, Rows(node, count)), Rows(u.node, u.count))
  {
    UpdateMeans(win, node, count, nextId, upper);
    ListedFalls(node, count);
    LoweredFalls(win, Rows(node, count));
    TopRecords(win, counts, Lowered(win, Rows(node, count)), upper);
  }

  lemma PushShares(win: Window, r: Update, upper: nat, node: Node, nextId: nat)
    requires WindowOk(win) && Shares(r, node, nextId)
    ensures Shares(MaybePush(win, r, upper), node, nextId)
  {
    if r.base.Node? { BaseBelow(r.node, r.base, r.nextId); }
    var u := MaybePush(win, r, upper);
    assert u != r ==> u.node != r.base && u.base == r.base;
  }

  lemma UpdateShares(win: Window, node: Node, count: nat, nextId: nat, upper: nat)
    requires WindowOk(win) && Listed(node, count) && Descending(node, nextId)
    ensures Shares(NewLateral(win, node, count, nextId, upper), node, nextId)
  {
    ReplaceShares(win, node, count, nextId);
    PushShares(win, Replace(win, node, count, nextId), upper, node, nextId);
  }

  lemma BaseBelow(node: Node, base: Node, bound: nat)
    requires HasSuffix(node, base) && Descending(node, bound) && base.Node?
    ensures base.id < bound
  {
    SuffixIds(node, base, bound);
  }

  /** What is freed after a successful CAS is exactly what the new descriptor does not reach, and what
      is freed after a failed one is exactly what was allocated for it. */
  lemma ReclaimExact(u: Update, node: Node, nextId: nat)
    requires Shares(u, node, nextId) && Descending(node, nextId)
    ensures Until(node, u.base) == Ids(node) - Ids(u.node)
    ensures Until(u.node, u.base) == Ids(u.node) - Ids(node)
    ensures Ids(node) * Ids(u.node) == Ids(u.base)
  {
    SuffixIds(node, u.base, nextId);
    SuffixIds(u.node, u.base, u.nextId);
  }

  /** Nothing is copied in vain: if lowering changes no row, the list is left alone. */
  lemma {:induction false} IdleKeepsList(win: Window, node: Node, count: nat, nextId: nat)
    requires WindowOk(win) && Listed(node, count) && Lowered(win, Rows(node, count)) == Rows(node, count)
    ensures var u := Replace(win, node, count, nextId); u.node == node && u.count == count
    decreases node
  {
    RowsTail(node, count);
    if count >= Low(win) {
      var s := Rows(node, count);
      LoweredShorter(win, s[1..]);
      assert Lowered(win, s)[1..] == Lowered(win, s[1..]);
      IdleKeepsList(win, node.next, node.nextCount, nextId);
    }
  }

  lemma {:induction false} LoweredShorter(win: Window, s: seq<Lat>)
    requires WindowOk(win)
    ensures |Lowered(win, s)| <= |s|
    decreases s
  {
    if s != [] && s[0].row >= Low(win) { LoweredShorter(win, s[1..]); }
  }

  /** The update changes nothing in a window: no node is lowered and nothing is pushed. */
  ghost predicate Idle(win: Window, s: seq<Lat>, upper: nat) requires WindowOk(win) && s != [] {
    Lowered(win, s) == s && NewTop(win, s, upper) == s
  }

  /** The descriptor is to be changed exactly when the update does something. */
  lemma IdleExact(win: Window, node: Node, count: nat, nextId: nat, upper: nat)
    requires WindowOk(win) && Listed(node, count) && Descending(node, nextId)
    ensures var u := NewLateral(win, node, count, nextId, upper);
            Rows(node, count) != [] && (u.node == node && u.count == count <==> Idle(win, Rows(node, count), upper))
  {
    var u, r, s := NewLateral(win, node, count, nextId, upper), Replace(win, node, count, nextId), Rows(node, count);
    ReplaceRefines(win, node, count, nextId);
    ReplaceShares(win, node, count, nextId);
    RowsTail(node, count);
    RowsTail(r.node, r.count);
    if Idle(win, s, upper) {
      IdleKeepsList(win, node, count, nextId);
      assert |NewTop(win, s, upper)| == |s|;
    }
    if u.node == node && u.count == count {
      assert u == r;
    }
  }

  // ---------------------------------------------------------------------------------------------
  // The shared descriptor

  /** push_wider_count: the highest count of the sub-stacks that the window no longer puts to. */
  method PushWiderCount(win: Window, counts: seq<nat>) returns (max: nat)
    requires win.oldPutWidth <= |counts|
    ensures forall i :: win.putWidth <= i < win.oldPutWidth ==> counts[i] <= max
    ensures max == 0 || exists i :: win.putWidth <= i < win.oldPutWidth && counts[i] == max
  {
    max := 0;
    var i := win.putWidth;
    while i < win.oldPutWidth
      invariant win.putWidth <= i && (win.putWidth <= win.oldPutWidth ==> i <= win.oldPutWidth)
      invariant forall j :: win.putWidth <= j < i && j < win.oldPutWidth ==> counts[j] <= max
      invariant max == 0 || exists j :: win.putWidth <= j < win.oldPutWidth && counts[j] == max
    {
      if counts[i] > max { max := counts[i]; }
      i := i + 1;
    }
  }

  datatype Desc = Desc(node: Node, count: nat, version: nat)

  /** A rewrite computed from the descriptor as read, not yet published. */
  datatype Plan = Plan(read: Desc, next: Desc, base: Node)

  ghost function Created(p: Plan): set<nat> { Until(p.next.node, p.base) }

  ghost predicate PlanOk(p: Plan, nextId: nat, inFlight: set<nat>) {
    && Listed(p.next.node, p.next.count) && p.read.version < p.next.version
    && HasSuffix(p.read.node, p.base) && HasSuffix(p.next.node, p.base)
    && Descending(p.read.node, nextId) && Descending(p.next.node, nextId)
    && Created(p) <= inFlight && Created(p) !! Ids(p.read.node)
  }

  lemma PlanKept(p: Plan, nextId: nat, inFlight: set<nat>, nextId1: nat, inFlight1: set<nat>)
    requires PlanOk(p, nextId, inFlight) && nextId <= nextId1 && Created(p) <= inFlight1
    ensures PlanOk(p, nextId1, inFlight1)
  {
    DescendingMore(p.read.node, nextId, nextId1);
    DescendingMore(p.next.node, nextId, nextId1);
  }

  lemma PlanMade(win: Window, read: Desc, nextId: nat, upper: nat)
    requires WindowOk(win) && Listed(read.node, read.count) && Descending(read.node, nextId)
    requires read.version < win.version
    ensures var u := NewLateral(win, read.node, read.count, nextId, upper);
            var p := Plan(read, Desc(u.node, u.count, win.version), u.base);
            && PlanOk(p, u.nextId, Created(p)) && nextId <= u.nextId
            && forall x: nat :: x in Created(p) <==> nextId <= x < u.nextId
  {
    var u := NewLateral(win, read.node, read.count, nextId, upper);
    UpdateMeans(win, read.node, read.count, nextId, upper);
    UpdateShares(win, read.node, read.count, nextId, upper);
    IdsBelow(read.node, nextId);
    DescendingMore(read.node, nextId, u.nextId);
  }

  class Lateral {
    var desc: Desc
    var nextId: nat
    var freed: set<nat>
    /** Allocated by threads that have not published yet. */
    ghost var inFlight: set<nat>

    /** Every node ever allocated is in the list, or freed, or in flight, and never two of these. */
    ghost predicate Valid() reads this {
      && Listed(desc.node, desc.count) && Descending(desc.node, nextId)
      && Ids(desc.node) !! freed && Ids(desc.node) !! inFlight && freed !! inFlight
      && forall x: nat :: (x in Ids(desc.node) || x in freed || x in inFlight) <==> x < nextId
    }

    constructor (maxWidth: nat)
      ensures Valid() && Rows(desc.node, desc.count) == [Lat(0, maxWidth + 1)] && desc.version == 0
      ensures freed == {} && inFlight == {}
    {
      desc := Desc(Node(0, maxWidth + 1, 0, Nil), 0, 0);
      nextId := 1;
      freed := {};
      inFlight := {};
    }

    /** free_nodes_until: each node is freed once, the deepest first. */
    method FreeUntil(node: Node, base: Node, ghost bound: nat)
      requires Descending(node, bound) && HasSuffix(node, base) && Until(node, base) !! freed
      modifies this`freed
      ensures freed == old(freed) + Until(node, base)
      decreases node
    {
      if node != base && node.Node? {
        FreeUntil(node.next, base, node.id);
        SuffixIds(node.next, base, node.id);
        assert node.id !in freed;
        freed := freed + {node.id};
      }
    }

    /** synchronize_lateral up to its CAS.  It does nothing unless the lateral was read in the thread's
        own window and not yet updated there, and nothing if no row would change. */
    method Prepare(win: Window, globalVersion: nat, counts: seq<nat>) returns (plan: Option<Plan>, ghost upper: nat)
      requires Valid() && WindowOk(win) && desc.version <= globalVersion && win.oldPutWidth <= |counts|
      modifies this`nextId, this`inFlight
      ensures Valid() && old(nextId) <= nextId
      ensures plan.Some? && win.putWidth < win.oldPutWidth ==> forall i :: win.putWidth <= i < win.oldPutWidth ==>
          counts[i] <= upper
      ensures plan.None? ==> nextId == old(nextId) && inFlight == old(inFlight)
      ensures Rows(desc.node, desc.count) != []
      ensures (plan.None? <==>
                || globalVersion != win.version || desc.version == win.version
                || Idle(win, Rows(desc.node, desc.count), upper))
      // updated or found up to date, the lateral says what this window has to leave behind
      ensures globalVersion == win.version && desc.version != win.version ==>
          Recorded(win, counts, Lowered(win, Rows(desc.node, desc.count)),
                   if plan.Some? then Rows(plan.value.next.node, plan.value.next.count)
                   else Rows(desc.node, desc.count))
      ensures plan.Some? ==> var p := plan.value;
              && p.read == desc && p.next.version == win.version &&
                  Rows(p.next.node, p.next.count) == NewRows(win, upper)
              && WideAbove(win, Rows(p.next.node, p.next.count))
              && PlanOk(p, nextId, inFlight) && inFlight == old(inFlight) + Created(p) && Created(p) !! old(inFlight)
    {
      var read := desc;
      upper := 0;
      RowsTail(read.node, read.count);
      if globalVersion != win.version || read.version == win.version {
        return None, upper;
      }
      var top := 0;
      if win.putWidth < win.oldPutWidth {
        top := PushWiderCount(win, counts);
      }
      upper := top;
      var u := NewLateral(win, read.node, read.count, nextId, top);
      IdleExact(win, read.node, read.count, nextId, top);
      UpdateRecords(win, read.node, read.count, nextId, counts, top);
      if u.count == read.count && u.node == read.node {
        return None, upper;
      }
      UpdateMeans(win, read.node, read.count, nextId, top);
      PlanMade(win, read, nextId, top);
      var p := Plan(read, Desc(u.node, u.count, win.version), u.base);
      PlanKept(p, u.nextId, Created(p), u.nextId, inFlight + Created(p));
      DescendingMore(read.node, nextId, u.nextId);
      nextId := u.nextId;
      inFlight := inFlight + Created(p);
      plan := Some(p);
    }

    /** The rows the lateral should have after the update for window win. */
    ghost function NewRows(win: Window, upper: nat): seq<Lat>
      requires WindowOk(win) && Listed(desc.node, desc.count)
      reads this`desc
    {
      var t := Lowered(win, Rows(desc.node, desc.count));
      if t == [] then t else NewTop(win, t, upper)
    }

    /** The CAS, and the frees after it: of the nodes the new descriptor no longer reaches if it
        succeeded, of the nodes created for it if some other thread was first. */
    method Publish(p: Plan) returns (ok: bool)
      requires Valid() && PlanOk(p, nextId, inFlight)
      modifies this`desc, this`freed, this`inFlight
      ensures Valid() && ok == (old(desc) == p.read)
      ensures desc == if ok then p.next else old(desc)
      ensures freed == old(freed) + if ok then Ids(p.read.node) - Ids(p.next.node) else Created(p)
      ensures inFlight == old(inFlight) - Created(p)
    {
      SuffixIds(p.read.node, p.base, nextId);
      SuffixIds(p.next.node, p.base, nextId);
      ok := desc == p.read;
      inFlight := inFlight - Created(p);
      if ok {
        desc := p.next;
        FreeUntil(p.read.node, p.base, nextId);
        assert Ids(p.read.node) - Ids(p.next.node) == Until(p.read.node, p.base);
        assert Ids(desc.node) + freed + inFlight == old(Ids(desc.node) + freed + inFlight);
      } else {
        FreeUntil(p.next.node, p.base, nextId);
        assert freed + inFlight == old(freed + inFlight);
      }
    }

    /** Two threads rewriting in the same window: only the first CAS succeeds, and nothing is leaked
        or freed twice. */
    method Race(win: Window, counts0: seq<nat>, counts1: seq<nat>) returns (first: bool, second: bool)
      requires Valid() && WindowOk(win) && desc.version <= win.version && win.oldPutWidth <= |counts0|
      requires win.oldPutWidth <= |counts1|
      modifies this
      ensures Valid() && inFlight == old(inFlight) && old(freed) <= freed
      ensures !(first && second) && (!first && !second ==> desc == old(desc))
      ensures desc.version == if first || second then win.version else old(desc.version)
    {
      first, second := false, false;
      var plan0, upper0 := Prepare(win, win.version, counts0);
      ghost var n, f := nextId, inFlight;
      var plan1, upper1 := Prepare(win, win.version, counts1);
      if plan0.Some? {
        PlanKept(plan0.value, n, f, nextId, inFlight);
        first := Publish(plan0.value);
      }
      if plan1.Some? {
        second := Publish(plan1.value);
      }
    }

    /** shift_width: the loop may stop at the first node not above the bottom, never reaches the
        sentinel, and gives the widest of the two put widths and of all nodes above the bottom. */
    method ShiftWidth(bottom: nat, oldPutWidth: nat, newPutWidth: nat) returns (width: nat)
      requires Valid()
      ensures oldPutWidth <= width && newPutWidth <= width
      ensures forall x :: x in Rows(desc.node, desc.count) && x.row > bottom + 1 ==> x.width <= width
      ensures width == oldPutWidth || width == newPutWidth ||
              exists x :: x in Rows(desc.node, desc.count) && x.row > bottom + 1 && x.width == width
      ensures forall r: nat :: bottom + 1 < r <= desc.count ==> WidthAt(Rows(desc.node, desc.count), r) <= width
    {
      width := if newPutWidth >= oldPutWidth then newPutWidth else oldPutWidth;
      ghost var s := Rows(desc.node, desc.count);
      ghost var k: nat := 0;
      var nextCount: nat, next := desc.count, desc.node;
      while nextCount > bottom + 1
        invariant Listed(next, nextCount) && k < |s| && s[k..] == Rows(next, nextCount)
        invariant oldPutWidth <= width && newPutWidth <= width
        invariant forall j :: 0 <= j < k ==> s[j].row > bottom + 1 && s[j].width <= width
        invariant width == oldPutWidth || width == newPutWidth ||
                exists x :: x in s && x.row > bottom + 1 && x.width == width
        decreases next
      {
        assert next.next.Node?;
        RowsTail(next, nextCount);
        assert s[k] == s[k..][0];
        assert s[k + 1..] == s[k..][1..];
        width := if next.width > width then next.width else width;
        nextCount, next := next.nextCount, next.next;
        k := k + 1;
      }
      ListedFalls(desc.node, desc.count);
      RowsTail(next, nextCount);
      assert s[k] == s[k..][0];
      forall r: nat | bottom + 1 < r <= desc.count ensures WidthAt(s, r) <= width { var x := WidthFrom(s, r); }
    }
  }

  // ---------------------------------------------------------------------------------------------
  // How the window moves

  /** put_shift_max: up by half the new depth, rounded up, and never below the new depth. */
  function PutShiftMax(oldMax: nat, newDepth: nat): (max: nat)
    ensures IsGreatest(max, newDepth, oldMax + (newDepth + 1) / 2)
    ensures max >= oldMax && (newDepth >= 1 ==> max > oldMax)
  {
    var shift := (newDepth + 1) / 2;
    if oldMax + shift < newDepth then newDepth else oldMax + shift
  }

  /** get_shift_max. */
  function GetShiftMax(oldMax: nat, newDepth: nat, oldDepth: nat): nat {
    var shift := (newDepth + 1) / 2;
    if oldDepth == newDepth then
      if oldMax >= shift + newDepth then oldMax - shift else newDepth
    else if oldMax >= oldDepth + shift then oldMax - oldDepth - shift + newDepth
    else newDepth
  }

  /** Both branches do the same: the bottom goes down by half the new depth, as far as row 0. */
  lemma GetShiftBottom(oldMax: nat, newDepth: nat, oldDepth: nat)
    requires oldMax >= oldDepth
    ensures var bottom, shift := oldMax - oldDepth, (newDepth + 1) / 2;
            GetShiftMax(oldMax, newDepth, oldDepth) == newDepth + if bottom >= shift then bottom - shift else 0
  {
  }
}
