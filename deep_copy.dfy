/** With a falsy copyType the target is emptied first and the walk never
  deletes: every object it walks into, apart from the target itself, is a `{}`
  it has just created. Proved here over `MergeSpec`: what ends up under the
  target is a copy of the source, child by child, and no other object of the
  target graph changes. */
module DeepCopy {
  import opened JsObjects
  import opened MergeSpec
  import opened MergeProps

  /** The target value `tv` copies the source value `sv`, met below the source
    objects `stack`, using only the objects `R`:
    - a scalar (including null) is the same value;
    - an object becomes an object of `R`;
    - that object is a copy of the source object, unless the source object is
      already on the stack (a cycle, not followed), in which case it stays `{}`. */
  ghost predicate CopiedVal(sh: Heap, h: Heap, sv: Val, stack: seq<Node>, tv: Val, R: set<Node>)
    decreases sh.Keys - Elems(stack), 0
  {
    if !sv.Obj? then tv == sv
    else
      && tv.Obj? && tv.node in R && tv.node in h
      && (sv.node in stack || sv.node !in sh ==> h[tv.node] == Empty)
      && (sv.node !in stack && sv.node in sh ==>
            assert Elems(stack + [sv.node]) == Elems(stack) + {sv.node};
            CopiedObj(sh, h, sv.node, stack + [sv.node], tv.node, R))
  }

  /** The target object `dst` holds exactly the names of the source object
    `src`, and under each a copy of the source's value. */
  ghost predicate CopiedObj(sh: Heap, h: Heap, src: Node, stack: seq<Node>, dst: Node, R: set<Node>)
    decreases sh.Keys - Elems(stack), 1
  {
    && src in sh && dst in h
    && (forall k :: k in h[dst].props <==> k in sh[src].props)
    && forall k :: k in sh[src].props ==> CopiedVal(sh, h, sh[src].props[k], stack, h[dst].props[k], R)
  }

  /** A copy stays a copy while the objects it is made of do not change, and
    when more objects are allowed. */
  lemma {:induction false} CopiedValFrame(sh: Heap, h: Heap, h2: Heap, sv: Val, stack: seq<Node>, tv: Val,
                                          R: set<Node>, R2: set<Node>)
    requires CopiedVal(sh, h, sv, stack, tv, R) && R <= R2
    requires forall n :: n in R && n in h ==> n in h2 && h2[n] == h[n]
    ensures CopiedVal(sh, h2, sv, stack, tv, R2)
    decreases sh.Keys - Elems(stack), 0
  {
    if sv.Obj? && sv.node !in stack && sv.node in sh {
      assert Elems(stack + [sv.node]) == Elems(stack) + {sv.node};
      CopiedObjFrame(sh, h, h2, sv.node, stack + [sv.node], tv.node, R, R2);
    }
  }

  lemma {:induction false} CopiedObjFrame(sh: Heap, h: Heap, h2: Heap, src: Node, stack: seq<Node>, dst: Node,
                                          R: set<Node>, R2: set<Node>)
    requires CopiedObj(sh, h, src, stack, dst, R) && R <= R2
    requires forall n :: n in R && n in h ==> n in h2 && h2[n] == h[n]
    requires dst in h2 && h2[dst] == h[dst]
    ensures CopiedObj(sh, h2, src, stack, dst, R2)
    decreases sh.Keys - Elems(stack), 1
  {
    forall k | k in sh[src].props
      ensures CopiedVal(sh, h2, sh[src].props[k], stack, h2[dst].props[k], R2)
    {
      CopiedValFrame(sh, h, h2, sh[src].props[k], stack, h[dst].props[k], R, R2);
    }
  }

  /** The names still to be walked after the first `j` turns were taken
    are not yet among the first ones. */
  lemma NextNameNew(ks: seq<string>, j: nat)
    requires Distinct(ks) && 0 < j <= |ks|
    ensures ks[|ks| - j..] == [ks[|ks| - j]] + ks[|ks| - (j - 1)..]
    ensures ks[|ks| - j] !in ks[|ks| - (j - 1)..]
  {
    var i := |ks| - j;
    assert forall m :: i + 1 <= m < |ks| ==> ks[m] != ks[i];
    var rest := ks[i + 1..];
    assert forall m :: 0 <= m < |rest| ==> rest[m] == ks[i + 1 + m];
  }

  /** One turn for a name `k` of `src` that the target object `dst` lacks,
    without conflict deletion: `dst` gains `k` holding a copy of the source
    value, made of objects the turn created; no other name of `dst` and no
    other object that existed changes. */
  lemma {:induction false} TurnCopies(sh: Heap, src: Node, stack: seq<Node>, path: seq<string>, dst: Node,
                                      k: string, r: Run, A: seq<Node>)
    requires AllWellFormed(sh) && src in sh && k in sh[src].props
    requires dst in r.heap && k !in r.heap[dst].props && Unallocated(A, r.used, r.heap)
    requires KeyStep(sh, src, stack, path, dst, false, k, r, A).used <= |A|
    ensures var r' := KeyStep(sh, src, stack, path, dst, false, k, r, A);
            && r.heap.Keys <= r'.heap.Keys && Unallocated(A, r'.used, r'.heap)
            && (forall n :: n in r.heap && n != dst ==> r'.heap[n] == r.heap[n])
            && (forall x :: x in r'.heap[dst].props <==> x in r.heap[dst].props || x == k)
            && (forall x :: x in r.heap[dst].props ==> r'.heap[dst].props[x] == r.heap[dst].props[x])
            && CopiedVal(sh, r'.heap, sh[src].props[k], stack, r'.heap[dst].props[k], r'.heap.Keys - r.heap.Keys)
    decreases sh.Keys - Elems(stack), 0, 0
  {
    var sv := sh[src].props[k];
    var (rp, tv) := Place(sv, k, dst, false, r, A);
    PlaceKeeps(sh, src, sv, k, dst, false, r, A);
    var r' := Follow(sh, sv, tv, stack, path, false, k, rp, A);
    assert KeyStep(sh, src, stack, path, dst, false, k, r, A) == r';
    if sv.Obj? {
      var c := A[r.used];
      assert c !in r.heap;
      assert rp.heap == r.heap[c := Empty][dst := r.heap[dst].Put(k, Obj(c))] && tv == Obj(c);
      if sv.node !in stack && sv.node in sh {
        var x := sv.node;
        assert Elems(stack + [x]) == Elems(stack) + {x};
        MergeCopies(sh, x, stack + [x], path + [k], c, |sh[x].keys|, rp, A);
        var R := r'.heap.Keys - r.heap.Keys;
        assert sh[x].keys[|sh[x].keys| - |sh[x].keys|..] == sh[x].keys;
        forall y | y in sh[x].props
          ensures CopiedVal(sh, r'.heap, sh[x].props[y], stack + [x], r'.heap[c].props[y], R)
        {
          CopiedValFrame(sh, r'.heap, r'.heap, sh[x].props[y], stack + [x], r'.heap[c].props[y],
                         r'.heap.Keys - rp.heap.Keys, R);
        }
        assert CopiedObj(sh, r'.heap, x, stack + [x], c, R);
      }
    }
  }

  /** The last `j` names of the snapshot of `src`, walked without conflict
    deletion into a target object `dst` that started empty: `dst` then holds
    exactly those names, each a copy of the source value made of objects this
    walk created, and no other object that existed changes. */
  lemma {:induction false} MergeCopies(sh: Heap, src: Node, stack: seq<Node>, path: seq<string>, dst: Node,
                                       j: nat, r: Run, A: seq<Node>)
    requires AllWellFormed(sh) && src in sh && j <= |sh[src].keys|
    requires dst in r.heap && r.heap[dst] == Empty && Unallocated(A, r.used, r.heap)
    requires Merge(sh, src, stack, path, dst, false, j, r, A).used <= |A|
    ensures var r' := Merge(sh, src, stack, path, dst, false, j, r, A);
            var P := sh[src].keys[|sh[src].keys| - j..];
            && r.heap.Keys <= r'.heap.Keys && Unallocated(A, r'.used, r'.heap)
            && (forall n :: n in r.heap && n != dst ==> r'.heap[n] == r.heap[n])
            && (forall x :: x in r'.heap[dst].props <==> x in P)
            && (forall x :: x in P && x in sh[src].props ==>
                  CopiedVal(sh, r'.heap, sh[src].props[x], stack, r'.heap[dst].props[x], r'.heap.Keys - r.heap.Keys))
    decreases sh.Keys - Elems(stack), j, 1
  {
    var keys := sh[src].keys;
    if j > 0 {
      var r1 := Merge(sh, src, stack, path, dst, false, j - 1, r, A);
      var k := keys[|keys| - j];
      MergeCopies(sh, src, stack, path, dst, j - 1, r, A);
      assert sh[src].WellFormed();
      NextNameNew(keys, j);
      var r2 := KeyStep(sh, src, stack, path, dst, false, k, r1, A);
      TurnCopies(sh, src, stack, path, dst, k, r1, A);
      var R1, R := r1.heap.Keys - r.heap.Keys, r2.heap.Keys - r.heap.Keys;
      forall x | x in keys[|keys| - (j - 1)..] && x in sh[src].props
        ensures CopiedVal(sh, r2.heap, sh[src].props[x], stack, r2.heap[dst].props[x], R)
      {
        CopiedValFrame(sh, r1.heap, r2.heap, sh[src].props[x], stack, r1.heap[dst].props[x], R1, R);
      }
      CopiedValFrame(sh, r2.heap, r2.heap, sh[src].props[k], stack, r2.heap[dst].props[k],
                     r2.heap.Keys - r1.heap.Keys, R);
    }
  }
}
