/** What a merge keeps, proved over the functions of `MergeSpec` for every input. */
module MergeProps {
  import opened JsObjects
  import opened MergeSpec

  /** No source object has a property called `k`. */
  ghost predicate Unnamed(sh: Heap, k: string) {
    forall m :: m in sh ==> k !in sh[m].props
  }

  /** What every step from `r` to `r2` keeps:
    - the counter, the warnings and the set of objects only grow;
    - without copyType 1 every existing property keeps its value, and with it
      so does every property whose name no source object has;
    - a name no source object has is never added;
    - as long as the allocation list suffices, no name disappears. */
  ghost predicate Keeps(sh: Heap, preferSource: bool, A: seq<Node>, r: Run, r2: Run) {
    && r.used <= r2.used && r.log <= r2.log && r.heap.Keys <= r2.heap.Keys
    && (forall n, k :: n in r.heap && Has(r.heap, n, k) && (!preferSource || Unnamed(sh, k)) ==>
          Has(r2.heap, n, k) && r2.heap[n].props[k] == r.heap[n].props[k])
    && (forall n, k :: n in r.heap && !Has(r.heap, n, k) && Unnamed(sh, k) ==> !Has(r2.heap, n, k))
    && (r2.used <= |A| ==> forall n, k :: n in r.heap && Has(r.heap, n, k) ==> Has(r2.heap, n, k))
  }

  /** Object `n` of `h` has a property `k`. */
  ghost predicate Has(h: Heap, n: Node, k: string) {
    n in h && k in h[n].props
  }

  lemma KeepsTrans(sh: Heap, preferSource: bool, A: seq<Node>, r1: Run, r2: Run, r3: Run)
    requires Keeps(sh, preferSource, A, r1, r2) && Keeps(sh, preferSource, A, r2, r3)
    ensures Keeps(sh, preferSource, A, r1, r3)
  {
    assert r1.log <= r3.log by {
      assert r1.log == r2.log[..|r1.log|] && r2.log == r3.log[..|r2.log|];
      assert r3.log[..|r2.log|][..|r1.log|] == r3.log[..|r1.log|];
    }
  }

  /** Placing one source property of `src` under its own name `k`. */
  lemma PlaceKeeps(sh: Heap, src: Node, sv: Val, k: string, dst: Node, preferSource: bool, r: Run, A: seq<Node>)
    requires dst in r.heap && src in sh && k in sh[src].props
    requires Unallocated(A, r.used, r.heap)
    ensures Keeps(sh, preferSource, A, r, Place(sv, k, dst, preferSource, r, A).0)
    ensures Unallocated(A, Place(sv, k, dst, preferSource, r, A).0.used, Place(sv, k, dst, preferSource, r, A).0.heap)
  {
    var r2 := Place(sv, k, dst, preferSource, r, A).0;
    assert !Unnamed(sh, k);
    if r.used < |A| && sv.Obj? {
      var d := if preferSource && Conflicts(sv, r.heap[dst], k) then r.heap[dst].Delete(k) else r.heap[dst];
      if k !in d.props {
        assert A[r.used] !in r.heap;
        assert r2.heap == r.heap[A[r.used] := Empty][dst := d.Put(k, Obj(A[r.used]))];
      }
    }
  }

  lemma {:induction false} MergeKeeps(sh: Heap, src: Node, stack: seq<Node>, path: seq<string>, dst: Node,
                                      preferSource: bool, j: nat, r: Run, A: seq<Node>)
    requires Unallocated(A, r.used, r.heap)
    ensures Keeps(sh, preferSource, A, r, Merge(sh, src, stack, path, dst, preferSource, j, r, A))
    ensures Unallocated(A, Merge(sh, src, stack, path, dst, preferSource, j, r, A).used,
                        Merge(sh, src, stack, path, dst, preferSource, j, r, A).heap)
    decreases sh.Keys - Elems(stack), j, 1, 0
  {
    if src in sh && 0 < j <= |sh[src].keys| {
      var r1 := Merge(sh, src, stack, path, dst, preferSource, j - 1, r, A);
      var k := sh[src].keys[|sh[src].keys| - j];
      MergeKeeps(sh, src, stack, path, dst, preferSource, j - 1, r, A);
      KeyStepKeeps(sh, src, stack, path, dst, preferSource, k, r1, A);
      KeepsTrans(sh, preferSource, A, r, r1, KeyStep(sh, src, stack, path, dst, preferSource, k, r1, A));
    }
  }

  lemma {:induction false} KeyStepKeeps(sh: Heap, src: Node, stack: seq<Node>, path: seq<string>, dst: Node,
                                        preferSource: bool, k: string, r: Run, A: seq<Node>)
    requires Unallocated(A, r.used, r.heap)
    ensures Keeps(sh, preferSource, A, r, KeyStep(sh, src, stack, path, dst, preferSource, k, r, A))
    ensures Unallocated(A, KeyStep(sh, src, stack, path, dst, preferSource, k, r, A).used,
                        KeyStep(sh, src, stack, path, dst, preferSource, k, r, A).heap)
    decreases sh.Keys - Elems(stack), 0, 1, 0
  {
    if src in sh && k in sh[src].props {
      VisitKeeps(sh, src, sh[src].props[k], stack, path, dst, preferSource, k, r, A);
    }
  }

  lemma {:induction false} VisitKeeps(sh: Heap, src: Node, sv: Val, stack: seq<Node>, path: seq<string>, dst: Node,
                                      preferSource: bool, k: string, r: Run, A: seq<Node>)
    requires src in sh && k in sh[src].props
    requires Unallocated(A, r.used, r.heap)
    ensures Keeps(sh, preferSource, A, r, Visit(sh, sv, stack, path, dst, preferSource, k, r, A))
    ensures Unallocated(A, Visit(sh, sv, stack, path, dst, preferSource, k, r, A).used,
                        Visit(sh, sv, stack, path, dst, preferSource, k, r, A).heap)
    decreases sh.Keys - Elems(stack), 0, 0, 1
  {
    if dst in r.heap {
      var (r1, tv) := Place(sv, k, dst, preferSource, r, A);
      PlaceKeeps(sh, src, sv, k, dst, preferSource, r, A);
      FollowKeeps(sh, sv, tv, stack, path, preferSource, k, r1, A);
      KeepsTrans(sh, preferSource, A, r, r1, Follow(sh, sv, tv, stack, path, preferSource, k, r1, A));
    }
  }

  lemma {:induction false} FollowKeeps(sh: Heap, sv: Val, tv: Val, stack: seq<Node>, path: seq<string>,
                                       preferSource: bool, k: string, r: Run, A: seq<Node>)
    requires Unallocated(A, r.used, r.heap)
    ensures Keeps(sh, preferSource, A, r, Follow(sh, sv, tv, stack, path, preferSource, k, r, A))
    ensures Unallocated(A, Follow(sh, sv, tv, stack, path, preferSource, k, r, A).used,
                        Follow(sh, sv, tv, stack, path, preferSource, k, r, A).heap)
    decreases sh.Keys - Elems(stack), 0, 0, 0
  {
    if sv.Obj? && tv.Obj? && sv.node !in stack && sv.node in sh {
      assert Elems(stack + [sv.node]) == Elems(stack) + {sv.node};
      MergeKeeps(sh, sv.node, stack + [sv.node], path + [k], tv.node, preferSource, |sh[sv.node].keys|, r, A);
    }
  }

  /** The source object reached from `n` by following the names `ks` in turn,
    if every step lands on a non-null object. */
  ghost function Walk(sh: Heap, n: Node, ks: seq<string>): Option<Node>
    decreases |ks|
  {
    if ks == [] then Some(n)
    else
      match Walk(sh, n, ks[..|ks| - 1])
      case None => None
      case Some(m) =>
        var k := ks[|ks| - 1];
        if m in sh && k in sh[m].props && sh[m].props[k].Obj? then Some(sh[m].props[k].node) else None
  }

  /** keyStack and objStack agree: the i-th object on the stack is reached from
    the root by the names keyStack[1..i+1] (keyStack[0] is "(root)"). */
  ghost predicate StackPath(sh: Heap, stack: seq<Node>, path: seq<string>) {
    |stack| == |path| >= 1 &&
    forall i :: 0 <= i < |stack| ==> Walk(sh, stack[0], path[1..i + 1]) == Some(stack[i])
  }

  /** A warning names a real cycle: the ancestor path is a proper prefix of the
    referring path, and both lead from the root to the same object. */
  ghost predicate Genuine(sh: Heap, root: Node, rep: Report) {
    && 1 <= |rep.ancestor| < |rep.referrer|
    && rep.ancestor == rep.referrer[..|rep.ancestor|]
    && Walk(sh, root, rep.referrer[1..]).Some?
    && Walk(sh, root, rep.referrer[1..]) == Walk(sh, root, rep.ancestor[1..])
  }

  /** The log only grows, and every warning added after position `from` is genuine. */
  ghost predicate GenuineAfter(sh: Heap, root: Node, log: seq<Report>, log2: seq<Report>) {
    log <= log2 && forall i :: |log| <= i < |log2| ==> Genuine(sh, root, log2[i])
  }

  lemma GenuineAfterTrans(sh: Heap, root: Node, l1: seq<Report>, l2: seq<Report>, l3: seq<Report>)
    requires GenuineAfter(sh, root, l1, l2) && GenuineAfter(sh, root, l2, l3)
    ensures GenuineAfter(sh, root, l1, l3)
  {
  }

  /** One step deeper: pushing the object under `k` of the top of the stack. */
  lemma StackPathPush(sh: Heap, stack: seq<Node>, path: seq<string>, k: string)
    requires StackPath(sh, stack, path)
    requires stack[|stack| - 1] in sh && k in sh[stack[|stack| - 1]].props && sh[stack[|stack| - 1]].props[k].Obj?
    ensures StackPath(sh, stack + [sh[stack[|stack| - 1]].props[k].node], path + [k])
  {
    var m := sh[stack[|stack| - 1]].props[k].node;
    var stack', path' := stack + [m], path + [k];
    forall i | 0 <= i < |stack'|
      ensures Walk(sh, stack'[0], path'[1..i + 1]) == Some(stack'[i])
    {
      assert stack'[0] == stack[0];
      if i < |stack| {
        assert path'[1..i + 1] == path[1..i + 1] && stack'[i] == stack[i];
      } else {
        ReferrerWalk(sh, stack, path, k);
        assert path'[1..i + 1] == (path + [k])[1..];
      }
    }
  }

  /** Following one more name from where a walk ends. */
  lemma WalkStep(sh: Heap, n: Node, ks: seq<string>, k: string, m: Node)
    requires Walk(sh, n, ks) == Some(m) && m in sh && k in sh[m].props && sh[m].props[k].Obj?
    ensures Walk(sh, n, ks + [k]) == Some(sh[m].props[k].node)
  {
  }

  /** The referring path of a warning leads to the value of `k` at the top of the stack. */
  lemma ReferrerWalk(sh: Heap, stack: seq<Node>, path: seq<string>, k: string)
    requires StackPath(sh, stack, path)
    requires stack[|stack| - 1] in sh && k in sh[stack[|stack| - 1]].props && sh[stack[|stack| - 1]].props[k].Obj?
    ensures Walk(sh, stack[0], (path + [k])[1..]) == Some(sh[stack[|stack| - 1]].props[k].node)
  {
    var top := |stack| - 1;
    assert path[1..top + 1] == path[1..];
    WalkStep(sh, stack[0], path[1..], k, stack[top]);
    assert (path + [k])[1..] == path[1..] + [k];
  }

  /** The ancestor path keyStack[0..i] leads to the i-th object of the stack. */
  lemma AncestorWalk(sh: Heap, stack: seq<Node>, path: seq<string>, i: nat)
    requires StackPath(sh, stack, path) && i < |stack|
    ensures Walk(sh, stack[0], path[..i + 1][1..]) == Some(stack[i])
  {
  }

  /** A name `k` of the top of the stack whose value is the i-th object of
    the stack closes a cycle: the path to it and the path to that object. */
  lemma CycleAt(sh: Heap, stack: seq<Node>, path: seq<string>, k: string, i: nat)
    requires StackPath(sh, stack, path) && i < |stack|
    requires stack[|stack| - 1] in sh && k in sh[stack[|stack| - 1]].props
    requires sh[stack[|stack| - 1]].props[k] == Obj(stack[i])
    ensures Genuine(sh, stack[0], Report(path + [k], path[..i + 1]))
  {
    ReferrerWalk(sh, stack, path, k);
    AncestorWalk(sh, stack, path, i);
    assert path[..i + 1] == (path + [k])[..i + 1];
  }

  /** The warning of line 374 for the name `k` of the top of the stack, whose
    value is an object already on the stack, names a real cycle. */
  lemma ReportGenuine(sh: Heap, stack: seq<Node>, path: seq<string>, k: string)
    requires StackPath(sh, stack, path)
    requires stack[|stack| - 1] in sh && k in sh[stack[|stack| - 1]].props
    requires sh[stack[|stack| - 1]].props[k].Obj? && sh[stack[|stack| - 1]].props[k].node in stack
    ensures Genuine(sh, stack[0], Report(path + [k], AncestorPath(path, IndexOf(stack, sh[stack[|stack| - 1]].props[k].node))))
  {
    var i := IndexOf(stack, sh[stack[|stack| - 1]].props[k].node);
    CycleAt(sh, stack, path, k, i);
  }

  lemma {:induction false} MergeReports(sh: Heap, src: Node, stack: seq<Node>, path: seq<string>, dst: Node,
                                        preferSource: bool, j: nat, r: Run, A: seq<Node>)
    requires StackPath(sh, stack, path) && src == stack[|stack| - 1]
    ensures GenuineAfter(sh, stack[0], r.log, Merge(sh, src, stack, path, dst, preferSource, j, r, A).log)
    decreases sh.Keys - Elems(stack), j, 1, 0
  {
    if src in sh && 0 < j <= |sh[src].keys| {
      var r1 := Merge(sh, src, stack, path, dst, preferSource, j - 1, r, A);
      var k := sh[src].keys[|sh[src].keys| - j];
      MergeReports(sh, src, stack, path, dst, preferSource, j - 1, r, A);
      KeyStepReports(sh, src, stack, path, dst, preferSource, k, r1, A);
      GenuineAfterTrans(sh, stack[0], r.log, r1.log, KeyStep(sh, src, stack, path, dst, preferSource, k, r1, A).log);
    }
  }

  lemma {:induction false} KeyStepReports(sh: Heap, src: Node, stack: seq<Node>, path: seq<string>, dst: Node,
                                          preferSource: bool, k: string, r: Run, A: seq<Node>)
    requires StackPath(sh, stack, path) && src == stack[|stack| - 1]
    ensures GenuineAfter(sh, stack[0], r.log, KeyStep(sh, src, stack, path, dst, preferSource, k, r, A).log)
    decreases sh.Keys - Elems(stack), 0, 1, 0
  {
    if src in sh && k in sh[src].props {
      VisitReports(sh, src, sh[src].props[k], stack, path, dst, preferSource, k, r, A);
    }
  }

  lemma {:induction false} VisitReports(sh: Heap, src: Node, sv: Val, stack: seq<Node>, path: seq<string>, dst: Node,
                                        preferSource: bool, k: string, r: Run, A: seq<Node>)
    requires StackPath(sh, stack, path) && src == stack[|stack| - 1]
    requires src in sh && k in sh[src].props && sv == sh[src].props[k]
    ensures GenuineAfter(sh, stack[0], r.log, Visit(sh, sv, stack, path, dst, preferSource, k, r, A).log)
    decreases sh.Keys - Elems(stack), 0, 0, 1
  {
    if dst in r.heap {
      var (r1, tv) := Place(sv, k, dst, preferSource, r, A);
      assert r1.log == r.log;
      FollowReports(sh, src, sv, tv, stack, path, preferSource, k, r1, A);
    }
  }

  lemma {:induction false} FollowReports(sh: Heap, src: Node, sv: Val, tv: Val, stack: seq<Node>, path: seq<string>,
                                         preferSource: bool, k: string, r: Run, A: seq<Node>)
    requires StackPath(sh, stack, path) && src == stack[|stack| - 1]
    requires src in sh && k in sh[src].props && sv == sh[src].props[k]
    ensures GenuineAfter(sh, stack[0], r.log, Follow(sh, sv, tv, stack, path, preferSource, k, r, A).log)
    decreases sh.Keys - Elems(stack), 0, 0, 0
  {
    if sv.Obj? && tv.Obj? {
      if sv.node in stack {
        ReportGenuine(sh, stack, path, k);
      } else if sv.node in sh {
        assert Elems(stack + [sv.node]) == Elems(stack) + {sv.node};
        StackPathPush(sh, stack, path, k);
        MergeReports(sh, sv.node, stack + [sv.node], path + [k], tv.node, preferSource, |sh[sv.node].keys|, r, A);
      }
    }
  }

  /** Lines 294-315 and 379-395 for one name `k` of the target `dst`:
    - no other object and no other name of `dst` changes;
    - a scalar source value is written when `dst` lacks `k` or copyType is 1,
      and the target's value is kept otherwise;
    - when both values are non-null objects, nothing changes here and the
      walk goes on into the target's object (merged, never replaced);
    - a source object whose name `dst` lacks (or, with copyType 1, holds a
      scalar under) gets a fresh `{}`, and the walk goes on into it;
    - without copyType 1 a scalar in the target is never replaced by an object. */
  lemma PlaceOutcome(sv: Val, k: string, dst: Node, preferSource: bool, r: Run, A: seq<Node>)
    requires dst in r.heap && Unallocated(A, r.used, r.heap)
    ensures var (r2, tv) := Place(sv, k, dst, preferSource, r, A);
            var was := r.heap[dst].props;
            && r2.log == r.log
            && (forall n :: n in r.heap && n != dst ==> n in r2.heap && r2.heap[n] == r.heap[n])
            && (forall x :: x != k ==> (Has(r2.heap, dst, x) <==> x in was))
            && (forall x :: x != k && x in was ==> r2.heap[dst].props[x] == was[x])
            && (!sv.Obj? ==>
                  && r2.used == r.used && tv == Undefined && Has(r2.heap, dst, k)
                  && r2.heap[dst].props[k] == if k in was && !preferSource then was[k] else sv)
            && (sv.Obj? && k in was && (was[k].Obj? || !preferSource) ==>
                  r2 == r && tv == was[k])
            && (sv.Obj? && (k !in was || (preferSource && !was[k].Obj?)) ==>
                  r2.used == r.used + 1 &&
                  (r.used < |A| ==> tv == Obj(A[r.used]) && A[r.used] !in r.heap && r2.heap[A[r.used]] == Empty &&
                                    Has(r2.heap, dst, k) && r2.heap[dst].props[k] == tv))
  {
    var was := r.heap[dst].props;
    var d := if preferSource && Conflicts(sv, r.heap[dst], k) then r.heap[dst].Delete(k) else r.heap[dst];
    if sv.Obj? && k in was && (was[k].Obj? || !preferSource) {
      assert d == r.heap[dst];
      assert r.heap[dst := d] == r.heap;
    }
  }

  /** Every name among the last `j` of the snapshot that the source object
    has is a property of `dst` afterwards, whatever copyType is, as long as
    the allocation list sufficed. */
  lemma {:induction false} MergeFills(sh: Heap, src: Node, stack: seq<Node>, path: seq<string>, dst: Node,
                                      preferSource: bool, j: nat, r: Run, A: seq<Node>)
    requires src in sh && dst in r.heap && j <= |sh[src].keys|
    requires Unallocated(A, r.used, r.heap)
    requires Merge(sh, src, stack, path, dst, preferSource, j, r, A).used <= |A|
    ensures forall k :: k in sh[src].keys[|sh[src].keys| - j..] && k in sh[src].props ==>
              Has(Merge(sh, src, stack, path, dst, preferSource, j, r, A).heap, dst, k)
    decreases j
  {
    if j > 0 {
      var keys := sh[src].keys;
      var r1 := Merge(sh, src, stack, path, dst, preferSource, j - 1, r, A);
      var k := keys[|keys| - j];
      var r2 := KeyStep(sh, src, stack, path, dst, preferSource, k, r1, A);
      MergeKeeps(sh, src, stack, path, dst, preferSource, j - 1, r, A);
      MergeFills(sh, src, stack, path, dst, preferSource, j - 1, r, A);
      KeyStepKeeps(sh, src, stack, path, dst, preferSource, k, r1, A);
      assert keys[|keys| - j..] == [k] + keys[|keys| - (j - 1)..];
      if k in sh[src].props {
        var sv := sh[src].props[k];
        var (rp, tv) := Place(sv, k, dst, preferSource, r1, A);
        PlaceOutcome(sv, k, dst, preferSource, r1, A);
        PlaceKeeps(sh, src, sv, k, dst, preferSource, r1, A);
        FollowKeeps(sh, sv, tv, stack, path, preferSource, k, rp, A);
        assert dst in r1.heap;
        assert r2 == Visit(sh, sv, stack, path, dst, preferSource, k, r1, A);
        assert r2 == Follow(sh, sv, tv, stack, path, preferSource, k, rp, A);
        assert Has(rp.heap, dst, k);
      }
    }
  }
}
