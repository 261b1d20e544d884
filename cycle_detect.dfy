/** The other half of the circular-reference check of lines 343-376: when the
  target side always offers an object to walk into (a falsy copyType, or
  copyType 1 over a target graph without dangling references), every circular
  reference the source has below the root is met and reported. */
module CycleDetection {
  import opened JsObjects
  import opened MergeSpec
  import opened MergeProps
  import opened DeepCopy

  /** The name `k` of the source object `src`, met with the objects `stack`
    on the stack, leads into a circular reference: its value is an object that
    is on the stack, or one that is not and below which there is one. */
  ghost predicate CycleVia(sh: Heap, src: Node, stack: seq<Node>, k: string)
    decreases sh.Keys - Elems(stack), 0
  {
    && src in sh && k in sh[src].props && sh[src].props[k].Obj?
    && var x := sh[src].props[k].node;
       x in stack ||
       (x in sh &&
        assert Elems(stack + [x]) == Elems(stack) + {x};
        CycleBelow(sh, x, stack + [x]))
  }

  /** Below `src` a chain of objects, each new to the stack, ends in an object
    with a property whose value is an object of the chain or of the stack.
    `CycleBelow(sh, s, [s])` says the source `s` has a circular reference. */
  ghost predicate CycleBelow(sh: Heap, src: Node, stack: seq<Node>)
    decreases sh.Keys - Elems(stack), 1
  {
    exists k :: CycleVia(sh, src, stack, k)
  }

  /** One placement keeps every reference of the target graph pointing at an
    object of the graph, and leaves an object under `k` that belongs to it. */
  lemma PlaceClosed(sv: Val, k: string, dst: Node, preferSource: bool, r: Run, A: seq<Node>)
    requires dst in r.heap && Closed(r.heap)
    ensures var (r2, tv) := Place(sv, k, dst, preferSource, r, A);
            Closed(r2.heap) && (tv.Obj? ==> tv.node in r2.heap)
  {
    var d := if preferSource && Conflicts(sv, r.heap[dst], k) then r.heap[dst].Delete(k) else r.heap[dst];
    assert forall x :: x in d.props ==> x in r.heap[dst].props && d.props[x] == r.heap[dst].props[x];
    if sv.Obj? && k !in d.props && r.used < |A| {
      var n := A[r.used];
      var st := d.Put(k, Obj(n));
      assert forall x :: x in st.props && st.props[x].Obj? ==> st.props[x].node in r.heap || st.props[x].node == n;
    } else if !sv.Obj? && k !in d.props {
      var st := d.Put(k, sv);
      assert forall x :: x in st.props && st.props[x].Obj? ==> st.props[x].node in r.heap;
    }
  }

  lemma {:induction false} MergeClosed(sh: Heap, src: Node, stack: seq<Node>, path: seq<string>, dst: Node,
                                       preferSource: bool, j: nat, r: Run, A: seq<Node>)
    requires Closed(r.heap)
    ensures Closed(Merge(sh, src, stack, path, dst, preferSource, j, r, A).heap)
    decreases sh.Keys - Elems(stack), j, 1, 0
  {
    if src in sh && 0 < j <= |sh[src].keys| {
      var r1 := Merge(sh, src, stack, path, dst, preferSource, j - 1, r, A);
      MergeClosed(sh, src, stack, path, dst, preferSource, j - 1, r, A);
      KeyStepClosed(sh, src, stack, path, dst, preferSource, sh[src].keys[|sh[src].keys| - j], r1, A);
    }
  }

  lemma {:induction false} KeyStepClosed(sh: Heap, src: Node, stack: seq<Node>, path: seq<string>, dst: Node,
                                         preferSource: bool, k: string, r: Run, A: seq<Node>)
    requires Closed(r.heap)
    ensures Closed(KeyStep(sh, src, stack, path, dst, preferSource, k, r, A).heap)
    decreases sh.Keys - Elems(stack), 0, 1, 0
  {
    if src in sh && k in sh[src].props {
      VisitClosed(sh, sh[src].props[k], stack, path, dst, preferSource, k, r, A);
    }
  }

  lemma {:induction false} VisitClosed(sh: Heap, sv: Val, stack: seq<Node>, path: seq<string>, dst: Node,
                                       preferSource: bool, k: string, r: Run, A: seq<Node>)
    requires Closed(r.heap)
    ensures Closed(Visit(sh, sv, stack, path, dst, preferSource, k, r, A).heap)
    decreases sh.Keys - Elems(stack), 0, 0, 1
  {
    if dst in r.heap {
      var (r1, tv) := Place(sv, k, dst, preferSource, r, A);
      PlaceClosed(sv, k, dst, preferSource, r, A);
      FollowClosed(sh, sv, tv, stack, path, preferSource, k, r1, A);
    }
  }

  lemma {:induction false} FollowClosed(sh: Heap, sv: Val, tv: Val, stack: seq<Node>, path: seq<string>,
                                        preferSource: bool, k: string, r: Run, A: seq<Node>)
    requires Closed(r.heap)
    ensures Closed(Follow(sh, sv, tv, stack, path, preferSource, k, r, A).heap)
    decreases sh.Keys - Elems(stack), 0, 0, 0
  {
    if sv.Obj? && tv.Obj? && sv.node !in stack && sv.node in sh {
      assert Elems(stack + [sv.node]) == Elems(stack) + {sv.node};
      MergeClosed(sh, sv.node, stack + [sv.node], path + [k], tv.node, preferSource, |sh[sv.node].keys|, r, A);
    }
  }

  /** What the walk needs of the target object `dst` to go down every source
    object: with copyType 1 a target graph without dangling references (a
    conflicting scalar is deleted, so an object is always found or created);
    otherwise a `{}` (a fresh or cleared object, so no name is found taken). */
  ghost predicate Receptive(h: Heap, dst: Node, preferSource: bool) {
    dst in h && if preferSource then Closed(h) else h[dst] == Empty
  }

  /** One turn for a name `k` of `src` that leads into a circular reference
    reports at least one warning. */
  lemma {:induction false} TurnDetects(sh: Heap, src: Node, stack: seq<Node>, path: seq<string>, dst: Node,
                                       preferSource: bool, k: string, r: Run, A: seq<Node>)
    requires AllWellFormed(sh) && CycleVia(sh, src, stack, k)
    requires dst in r.heap && Unallocated(A, r.used, r.heap)
    requires if preferSource then Closed(r.heap) else k !in r.heap[dst].props
    requires KeyStep(sh, src, stack, path, dst, preferSource, k, r, A).used <= |A|
    ensures |r.log| < |KeyStep(sh, src, stack, path, dst, preferSource, k, r, A).log|
    decreases sh.Keys - Elems(stack), 0, 0
  {
    var sv := sh[src].props[k];
    var x := sv.node;
    var (rp, tv) := Place(sv, k, dst, preferSource, r, A);
    PlaceKeeps(sh, src, sv, k, dst, preferSource, r, A);
    var r' := Follow(sh, sv, tv, stack, path, preferSource, k, rp, A);
    assert KeyStep(sh, src, stack, path, dst, preferSource, k, r, A) == r';
    if preferSource {
      PlaceClosed(sv, k, dst, preferSource, r, A);
    } else {
      assert rp.heap == r.heap[A[r.used] := Empty][dst := r.heap[dst].Put(k, Obj(A[r.used]))];
    }
    assert tv.Obj? && Receptive(rp.heap, tv.node, preferSource);
    if x !in stack {
      assert Elems(stack + [x]) == Elems(stack) + {x};
      assert CycleBelow(sh, x, stack + [x]);
      var k2 :| CycleVia(sh, x, stack + [x], k2);
      var keys := sh[x].keys;
      assert sh[x].WellFormed() && keys[|keys| - |keys|..] == keys;
      MergeDetects(sh, x, stack + [x], path + [k], tv.node, preferSource, |keys|, rp, A);
    }
  }

  /** After the first `j - 1` turns into a receptive target object, the
    next turn still finds what it needs: the target object, fresh allocations,
    and a graph without dangling references (copyType 1) or the next name not
    yet taken (otherwise). */
  lemma TurnReady(sh: Heap, src: Node, stack: seq<Node>, path: seq<string>, dst: Node,
                  preferSource: bool, j: nat, r: Run, A: seq<Node>)
    requires AllWellFormed(sh) && src in sh && 0 < j <= |sh[src].keys|
    requires Receptive(r.heap, dst, preferSource) && Unallocated(A, r.used, r.heap)
    requires Merge(sh, src, stack, path, dst, preferSource, j - 1, r, A).used <= |A|
    ensures var r1 := Merge(sh, src, stack, path, dst, preferSource, j - 1, r, A);
            && dst in r1.heap && Unallocated(A, r1.used, r1.heap) && r.log <= r1.log
            && if preferSource then Closed(r1.heap)
               else sh[src].keys[|sh[src].keys| - j] !in r1.heap[dst].props
  {
    MergeKeeps(sh, src, stack, path, dst, preferSource, j - 1, r, A);
    if preferSource {
      MergeClosed(sh, src, stack, path, dst, preferSource, j - 1, r, A);
    } else {
      assert sh[src].WellFormed();
      NextNameNew(sh[src].keys, j);
      MergeCopies(sh, src, stack, path, dst, j - 1, r, A);
    }
  }

  /** The last `j` names of the snapshot of `src`, walked into a receptive
    target object: if one of them leads into a circular reference, at least
    one warning is reported. */
  lemma {:induction false} MergeDetects(sh: Heap, src: Node, stack: seq<Node>, path: seq<string>, dst: Node,
                                        preferSource: bool, j: nat, r: Run, A: seq<Node>)
    requires AllWellFormed(sh) && src in sh && j <= |sh[src].keys|
    requires Receptive(r.heap, dst, preferSource) && Unallocated(A, r.used, r.heap)
    requires Merge(sh, src, stack, path, dst, preferSource, j, r, A).used <= |A|
    requires exists k :: k in sh[src].keys[|sh[src].keys| - j..] && CycleVia(sh, src, stack, k)
    ensures |r.log| < |Merge(sh, src, stack, path, dst, preferSource, j, r, A).log|
    decreases sh.Keys - Elems(stack), j, 1
  {
    var keys := sh[src].keys;
    var r1 := Merge(sh, src, stack, path, dst, preferSource, j - 1, r, A);
    var k := keys[|keys| - j];
    assert keys[|keys| - j..] == [k] + keys[|keys| - (j - 1)..];
    TurnReady(sh, src, stack, path, dst, preferSource, j, r, A);
    KeyStepKeeps(sh, src, stack, path, dst, preferSource, k, r1, A);
    if CycleVia(sh, src, stack, k) {
      TurnDetects(sh, src, stack, path, dst, preferSource, k, r1, A);
    } else {
      MergeDetects(sh, src, stack, path, dst, preferSource, j - 1, r, A);
    }
  }

  /** Following a first name, then the rest. */
  lemma {:induction false} WalkCons(sh: Heap, n: Node, k: string, ks: seq<string>)
    ensures Walk(sh, n, [k] + ks) ==
            if n in sh && k in sh[n].props && sh[n].props[k].Obj? then Walk(sh, sh[n].props[k].node, ks) else None
    decreases |ks|
  {
    if ks != [] {
      var init := ks[..|ks| - 1];
      assert ([k] + ks)[..|ks|] == [k] + init;
      assert ([k] + ks)[|ks|] == ks[|ks| - 1];
      WalkCons(sh, n, k, init);
    }
  }

  /** A walk by the names `ks` from the top of the stack that ends on an
    object of the stack, or on one it passed through after its first step,
    contains a circular reference in the sense of `CycleBelow`. */
  lemma {:induction false} WalkBelow(sh: Heap, stack: seq<Node>, ks: seq<string>, y: Node)
    requires |stack| >= 1 && |ks| >= 1
    requires Walk(sh, stack[|stack| - 1], ks) == Some(y)
    requires y in stack || exists i :: 1 <= i < |ks| && Walk(sh, stack[|stack| - 1], ks[..i]) == Some(y)
    ensures CycleBelow(sh, stack[|stack| - 1], stack)
    decreases |ks|
  {
    var top, k, rest := stack[|stack| - 1], ks[0], ks[1..];
    assert ks == [k] + rest;
    WalkCons(sh, top, k, rest);
    var x := sh[top].props[k].node;
    if x !in stack {
      assert rest == [rest[0]] + rest[1..];
      WalkCons(sh, x, rest[0], rest[1..]);
      var stack' := stack + [x];
      if y !in stack {
        var i :| 1 <= i < |ks| && Walk(sh, top, ks[..i]) == Some(y);
        assert ks[..i] == [k] + rest[..i - 1];
        WalkCons(sh, top, k, rest[..i - 1]);
        if i == 1 {
          assert rest[..0] == [];
        }
      }
      WalkBelow(sh, stack', rest, y);
      assert Elems(stack') == Elems(stack) + {x};
    }
    assert CycleVia(sh, top, stack, k);
  }

  /** A warning that names a genuine cycle (the sense of `ReportsAreCycles`)
    shows a circular reference in the sense of `CycleBelow`. */
  lemma GenuineIsCycle(sh: Heap, s: Node, rep: Report)
    requires Genuine(sh, s, rep)
    ensures CycleBelow(sh, s, [s])
  {
    var R := rep.referrer[1..];
    var m := |rep.ancestor|;
    assert rep.ancestor[1..] == R[..m - 1];
    var y := Walk(sh, s, R).value;
    if m == 1 {
      assert R[..0] == [];
    }
    WalkBelow(sh, [s], R, y);
  }

}
