/** Facts about the allocation list that the imperative model relies on:
  objects taken from a longer list are the same as from its prefix, as long
  as the prefix was long enough. */
module MergeFrame {
  import opened JsObjects
  import opened MergeSpec

  lemma {:induction false} MergeExtends(sh: Heap, src: Node, stack: seq<Node>, path: seq<string>, dst: Node,
                                        preferSource: bool, j: nat, r: Run, A: seq<Node>, A2: seq<Node>)
    requires A <= A2
    requires Merge(sh, src, stack, path, dst, preferSource, j, r, A).used <= |A|
    ensures Merge(sh, src, stack, path, dst, preferSource, j, r, A2) == Merge(sh, src, stack, path, dst, preferSource, j, r, A)
    decreases sh.Keys - Elems(stack), j, 1, 0
  {
    if src in sh && 0 < j <= |sh[src].keys| {
      var r1 := Merge(sh, src, stack, path, dst, preferSource, j - 1, r, A);
      MergeExtends(sh, src, stack, path, dst, preferSource, j - 1, r, A, A2);
      KeyStepExtends(sh, src, stack, path, dst, preferSource, sh[src].keys[|sh[src].keys| - j], r1, A, A2);
    }
  }

  lemma {:induction false} KeyStepExtends(sh: Heap, src: Node, stack: seq<Node>, path: seq<string>, dst: Node,
                                          preferSource: bool, k: string, r: Run, A: seq<Node>, A2: seq<Node>)
    requires A <= A2
    requires KeyStep(sh, src, stack, path, dst, preferSource, k, r, A).used <= |A|
    ensures KeyStep(sh, src, stack, path, dst, preferSource, k, r, A2) == KeyStep(sh, src, stack, path, dst, preferSource, k, r, A)
    decreases sh.Keys - Elems(stack), 0, 1, 0
  {
    if src in sh && k in sh[src].props {
      VisitExtends(sh, sh[src].props[k], stack, path, dst, preferSource, k, r, A, A2);
    }
  }

  lemma {:induction false} VisitExtends(sh: Heap, sv: Val, stack: seq<Node>, path: seq<string>, dst: Node,
                                        preferSource: bool, k: string, r: Run, A: seq<Node>, A2: seq<Node>)
    requires A <= A2
    requires Visit(sh, sv, stack, path, dst, preferSource, k, r, A).used <= |A|
    ensures Visit(sh, sv, stack, path, dst, preferSource, k, r, A2) == Visit(sh, sv, stack, path, dst, preferSource, k, r, A)
    decreases sh.Keys - Elems(stack), 0, 0, 1
  {
    if dst in r.heap {
      var (r1, tv) := Place(sv, k, dst, preferSource, r, A);
      assert Place(sv, k, dst, preferSource, r, A2) == (r1, tv);
      FollowExtends(sh, sv, tv, stack, path, preferSource, k, r1, A, A2);
    }
  }

  lemma {:induction false} FollowExtends(sh: Heap, sv: Val, tv: Val, stack: seq<Node>, path: seq<string>,
                                         preferSource: bool, k: string, r: Run, A: seq<Node>, A2: seq<Node>)
    requires A <= A2
    requires Follow(sh, sv, tv, stack, path, preferSource, k, r, A).used <= |A|
    ensures Follow(sh, sv, tv, stack, path, preferSource, k, r, A2) == Follow(sh, sv, tv, stack, path, preferSource, k, r, A)
    decreases sh.Keys - Elems(stack), 0, 0, 0
  {
    if sv.Obj? && tv.Obj? && sv.node !in stack && sv.node in sh {
      assert Elems(stack + [sv.node]) == Elems(stack) + {sv.node};
      MergeExtends(sh, sv.node, stack + [sv.node], path + [k], tv.node, preferSource,
                   |sh[sv.node].keys|, r, A, A2);
    }
  }

  /** A turn split at the placement: when placing over `A` gave `(r1, tv)`,
    the turn over any longer list is following `tv` from `r1` over that list. */
  lemma VisitSplits(sh: Heap, sv: Val, stack: seq<Node>, path: seq<string>, dst: Node,
                    preferSource: bool, k: string, r: Run, A: seq<Node>, A2: seq<Node>, r1: Run, tv: Val)
    requires dst in r.heap && A <= A2
    requires Place(sv, k, dst, preferSource, r, A) == (r1, tv) && r1.used <= |A|
    ensures Visit(sh, sv, stack, path, dst, preferSource, k, r, A2) == Follow(sh, sv, tv, stack, path, preferSource, k, r1, A2)
  {
  }

  /** One more name of the snapshot: the fold so far, computed over a shorter
    allocation list, followed by one KeyStep over the longer one. */
  lemma MergeNext(sh: Heap, src: Node, stack: seq<Node>, path: seq<string>, dst: Node,
                  preferSource: bool, j: nat, r: Run, A: seq<Node>, A2: seq<Node>, rb: Run)
    requires src in sh && j < |sh[src].keys| && A <= A2
    requires Merge(sh, src, stack, path, dst, preferSource, j, r, A) == rb && rb.used <= |A|
    ensures Merge(sh, src, stack, path, dst, preferSource, j + 1, r, A2)
            == KeyStep(sh, src, stack, path, dst, preferSource, sh[src].keys[|sh[src].keys| - j - 1], rb, A2)
  {
    MergeExtends(sh, src, stack, path, dst, preferSource, j, r, A, A2);
  }

  /** Two stretches of fresh allocations, the second taken after the first
    was added to the heap, form one stretch of fresh allocations. */
  lemma UnallocatedJoin(A1: seq<Node>, A2: seq<Node>, A3: seq<Node>, h1: Heap, h2: Heap)
    requires |A1| <= |A2| && A2 <= A3 && h1.Keys <= h2.Keys && Elems(A2) <= h2.Keys
    requires Unallocated(A2, |A1|, h1) && Unallocated(A3, |A2|, h2)
    ensures Unallocated(A3, |A1|, h1)
  {
  }
}
