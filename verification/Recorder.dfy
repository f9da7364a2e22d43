/** The rank-error recorder: a linear copy of the data structure, kept under a lock, from which the
    distance of every removed element is read off. */
module Recorder {
  import opened Relaxation

  class LinearNode {
    var val: int
    var next: LinearNode?
    constructor (val: int)
      ensures this.val == val && next == null
    {
      this.val, next := val, null;
    }
  }

  /** linear_list_t. */
  class LinearList {
    var size: nat
    var head: LinearNode?
    var tail: LinearNode?
    ghost var nodes: seq<LinearNode>   // the nodes from head to tail
    ghost var values: seq<int>         // what they hold

    ghost predicate NodeOk(a: nat)
      requires a < |nodes|
      reads this, nodes
    {
      && a < |values| && nodes[a].val == values[a]
      && nodes[a].next == if a + 1 < |nodes| then nodes[a + 1] else null
    }

    ghost predicate Linked() reads this, nodes {
      && |values| == |nodes| && (forall a, b :: 0 <= a < b < |nodes| ==> nodes[a] != nodes[b])
      && head == (if nodes == [] then null else nodes[0])
      && tail == (if nodes == [] then null else nodes[|nodes| - 1])
      && forall a {:trigger NodeOk(a)} :: 0 <= a < |nodes| ==> NodeOk(a)
    }

    ghost predicate Valid() reads this, nodes { Linked() && size == |nodes| }

    /** What does not touch the list or its nodes leaves it linked. */
    twostate lemma Untouched()
      requires old(Linked()) && unchanged(`head) && unchanged(`tail) && unchanged(`nodes) && unchanged(`values)
      requires forall n :: n in nodes ==> n.next == old(n.next) && n.val == old(n.val)
      ensures Linked()
    {
      forall a | 0 <= a < |nodes| ensures NodeOk(a) { assert old(NodeOk(a)); }
    }

    constructor ()
      ensures Valid() && nodes == []
    {
      size, head, tail, nodes, values := 0, null, null, [], [];
    }

    method AddHead(n: LinearNode)
      requires Linked() && n !in nodes && nodes != []
      modifies this, n`next
      ensures Linked() && nodes == [n] + old(nodes) && values == [n.val] + old(values) && size == old(size)
    {
      n.next := head;
      head := n;
      nodes, values := [n] + nodes, [n.val] + values;
      forall a | 0 <= a < |nodes| ensures NodeOk(a) {
        if a > 0 { assert old(NodeOk(a - 1)); }
      }
    }

    /** Both add_linear and add_relaxed_dist append this way. */
    method Append(n: LinearNode)
      requires Linked() && n !in nodes && n.next == null
      modifies this, nodes, n`next
      ensures Linked() && nodes == old(nodes) + [n] && values == old(values) + [n.val] && size == old(size)
      ensures n.val == old(n.val)
    {
      if head == null {
        head, tail := n, n;
      } else {
        assert NodeOk(|nodes| - 1);
        tail.next := n;
        tail := n;
      }
      nodes, values := nodes + [n], values + [n.val];
      forall a | 0 <= a < |nodes| ensures NodeOk(a) {
        if a < |nodes| - 1 { assert old(NodeOk(a)); }
      }
    }

    /** add_linear.  Asked for an end that does not exist, it reports an error after it has already
        counted the element, unless the list was empty. */
    method Add(val: int, end: int) returns (ok: bool)
      requires Valid()
      modifies this, nodes
      ensures Linked() && size == old(size) + 1
      ensures ok <==> end == 0 || end == 1 || old(nodes) == []
      ensures ok ==> Valid() && values == if end == 1 then [val] + old(values) else old(values) + [val]
      ensures !ok ==> values == old(values)
      ensures forall n :: n in nodes ==> n in old(nodes) || fresh(n)
    {
      var n := new LinearNode(val);
      size := size + 1;
      Untouched();
      ok := head == null || end == 1 || end == 0;
      if head != null && end == 1 {
        AddHead(n);
      } else if ok {
        Append(n);
      }
    }

    /** add_relaxed_dist. */
    method AddRelaxedDist(n: LinearNode)
      requires Valid() && n !in nodes
      modifies this, nodes, n`next
      ensures Valid() && nodes == old(nodes) + [n] && values == old(values) + [n.val] && n.val == old(n.val)
    {
      size := size + 1;
      n.next := null;
      Untouched();
      Append(n);
    }

    method TakeHead() returns (found: LinearNode)
      requires Linked() && nodes != []
      modifies this
      ensures Linked() && found == old(nodes)[0] && nodes == old(nodes)[1..] && values == old(values)[1..]
      ensures size == old(size)
    {
      found := head;
      assert NodeOk(0);
      if head == tail {
        tail := null;
      }
      head := head.next;
      nodes, values := nodes[1..], values[1..];
      forall a | 0 <= a < |nodes| ensures NodeOk(a) {
        assert old(NodeOk(a + 1));
      }
    }

    method TakeAfter(last: LinearNode, ghost k: nat) returns (found: LinearNode)
      requires Linked() && k + 1 < |nodes| && last == nodes[k]
      modifies this, last`next
      ensures Linked() && found == old(nodes)[k + 1] && size == old(size)
      ensures nodes == Without(old(nodes), k + 1) && values == Without(old(values), k + 1)
    {
      assert NodeOk(k) && NodeOk(k + 1);
      found := last.next;
      last.next := found.next;
      if found == tail {
        tail := last;
      }
      nodes, values := Without(nodes, k + 1), Without(values, k + 1);
      forall a | 0 <= a < |nodes| ensures NodeOk(a) {
        assert old(NodeOk(if a <= k then a else a + 1));
      }
    }

    /** The search of remove_linear: the first node holding val is unlinked. */
    method TakeOut(val: int) returns (found: LinearNode, skipped: nat)
      requires Valid() && val in values
      modifies this, nodes
      ensures Valid() && skipped < |old(nodes)| && found == old(nodes)[skipped]
      ensures nodes == Without(old(nodes), skipped) && values == Without(old(values), skipped)
      ensures old(values)[skipped] == val && val !in old(values)[..skipped]
    {
      assert NodeOk(0);
      size := size - 1;
      Untouched();
      skipped := 0;
      if head.val == val {
        found := TakeHead();
      } else {
        skipped := 1;
        var last := head;
        assert NodeOk(0);
        while last.next.val != val
          invariant 1 <= skipped < |nodes| && last == nodes[skipped - 1] && NodeOk(skipped - 1)
          invariant val !in values[..skipped]
          decreases |nodes| - skipped
        {
          assert NodeOk(skipped);
          skipped := skipped + 1;
          last := last.next;
        }
        assert NodeOk(skipped);
        found := TakeAfter(last, skipped - 1);
      }
    }
  }

  class Recorder {
    const clone: LinearList    // linear_clone
    const dists: LinearList    // error_dists

    ghost predicate Valid()
      reads this, clone, dists, clone.nodes, dists.nodes
    {
      clone != dists && clone.Valid() && dists.Valid() && forall n :: n in clone.nodes ==> n !in dists.nodes
    }

    constructor ()
      ensures Valid() && fresh(clone) && fresh(dists) && clone.nodes == [] && dists.nodes == []
    {
      clone := new LinearList();
      dists := new LinearList();
    }

    method AddLinear(val: int, end: int) returns (ok: bool)
      requires Valid()
      modifies clone, clone.nodes
      ensures ok <==> end == 0 || end == 1 || old(clone.nodes) == []
      ensures ok ==> Valid() && clone.values == if end == 1 then [val] + old(clone.values)
          else old(clone.values) + [val]
      ensures !ok ==> clone.Linked() && clone.values == old(clone.values) && clone.size == |clone.nodes| + 1
      ensures forall n :: n in clone.nodes ==> n in old(clone.nodes) || fresh(n)
    {
      ok := clone.Add(val, end);
      dists.Untouched();
    }

    /** remove_linear: the distance recorded for a value is the number of elements ahead of it; the
        other elements keep their order. */
    method RemoveLinear(val: int) returns (ghost k: nat)
      requires Valid() && val in clone.values
      modifies clone, clone.nodes, dists, dists.nodes
      ensures Valid() && forall n :: n in clone.nodes + dists.nodes ==> n in old(clone.nodes + dists.nodes)
      ensures k < |old(clone.values)| && old(clone.values)[k] == val && val !in old(clone.values)[..k]
      ensures clone.values == Without(old(clone.values), k)
      ensures dists.values == old(dists.values) + [k]
    {
      var found, skipped := clone.TakeOut(val);
      k := skipped;
      dists.Untouched();
      label Out:
      found.val := skipped;
      clone.Untouched@Out();
      dists.Untouched@Out();
      assert forall n :: n in clone.nodes ==> n in old(clone.nodes) && n != found;
      label Held:
      dists.AddRelaxedDist(found);
      clone.Untouched@Held();
    }
  }
}
