/** The windows of the elastic LaW queue, as the list they form. */
module LateralWindows {

  datatype Win = Win(max: nat, width: nat, depth: nat)

  function Bottom(w: Win): nat { if w.max >= w.depth then w.max - w.depth else 0 }

  /** The row both sides compute for a sub-queue in window w when its count stands at r: the row
      above r, or the bottom row of the window if the sub-queue comes from further below. */
  function NextRow(w: Win, r: nat): nat {
    (if r >= Bottom(w) then r else Bottom(w)) + 1
  }

  ghost predicate Adjacent(below: Win, w: Win) {
    w.depth >= 1 && w.max == below.max + w.depth
  }

  /** The window at l lies wholly above the one at k. */
  ghost predicate Above(wins: seq<Win>, k: nat, l: nat) {
    k < l < |wins| && wins[k].max + wins[l].depth <= wins[l].max
  }

  /** Windows are contiguous: each begins where the one before ended. */
  ghost predicate Lateral(wins: seq<Win>, maxWidth: nat) {
    && |wins| >= 2
    && (forall k, l {:trigger Adjacent(wins[k], wins[l])} :: 0 <= k && l == k + 1 < |wins| ==>
        Adjacent(wins[k], wins[l]))
    && (forall k :: 0 < k < |wins| ==> 1 <= wins[k].depth <= wins[k].max)
    && (forall k, l :: 0 <= k < l < |wins| ==> Above(wins, k, l))
    && (forall k :: 0 <= k < |wins| ==> 1 <= wins[k].width <= maxWidth)
  }

  /** Any width and depth may be chosen for the next window. */
  lemma LateralGrows(wins: seq<Win>, w: Win, maxWidth: nat)
    requires Lateral(wins, maxWidth) && 1 <= w.width <= maxWidth && Adjacent(wins[|wins| - 1], w)
    ensures Lateral(wins + [w], maxWidth)
  {
    var wins1, n := wins + [w], |wins| - 1;
    forall k, l | 0 <= k < l < |wins1| ensures Above(wins1, k, l) {
      if l < |wins| { assert Above(wins, k, l); }
      else if k < n { assert Above(wins, k, n); }
    }
    forall k, l | 0 <= k && l == k + 1 < |wins1| ensures Adjacent(wins1[k], wins1[l]) {
      if l < |wins| { assert Adjacent(wins[k], wins[l]); }
    }
  }
}
