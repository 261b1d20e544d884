/** What copyObject promises to its caller, proved over `CopyObjectSpec` for
  every input. `A` is the list of `{}` objects the call creates, in order;
  `CopyObject.CopyObject` shows that the objects it really creates form such a
  list (`Unallocated(A, 0, th)`), so every lemma below applies to it. */
module CopyProps {
  import opened JsObjects
  import opened MergeSpec
  import opened MergeProps
  import opened DeepCopy
  import opened CycleDetection

  /** The copyType test of line 420 as written: a number is never refused, so
    3 or -1 are taken; a string or a boolean is refused only when it converts
    to a number outside 0..2. */
  lemma CopyTypeCheckAsWritten(n: int)
    ensures !RejectsCopyType(Num(n))
    ensures RejectsCopyType(Str("3")) && RejectsCopyType(Str("-1"))
    ensures !RejectsCopyType(Str("2")) && !RejectsCopyType(Str("abc")) && !RejectsCopyType(Bool(true))
    ensures !RejectsCopyType(Undefined) && !RejectsCopyType(Null)
  {
  }

  /** Every accepted copyType other than a falsy value and the number 1 behaves
    exactly like 2 (lines 294 and 432 test only `=== 1` and falsiness). */
  lemma OtherCopyTypesRetain(sh: Heap, th: Heap, source: Val, target: Val, copyType: Val, A: seq<Node>)
    requires source != Null && target != Null
    requires !Falsy(copyType) && copyType != Num(1) && !RejectsCopyType(copyType)
    ensures CopyObjectSpec(sh, th, source, target, copyType, A) == CopyObjectSpec(sh, th, source, target, Num(2), A)
  {
  }

  /** The first element of a non-empty list is one of its elements. */
  lemma HeadIn(s: seq<string>)
    requires s != []
    ensures s[0] in s
  {
  }

  /** Lines 432-438 on an object whose names are its properties leave it empty. */
  lemma ClearingEmpties(st: NodeState)
    requires forall k :: k in st.props ==> k in st.keys
    ensures DeleteAll(st, st.keys) == Empty
  {
    var e := DeleteAll(st, st.keys);
    if e.keys != [] {
      HeadIn(e.keys);
      assert false;
    }
    assert e.props == map[];
  }

  /** The target objects after the clearing of lines 432-438, before the walk. */
  lemma ClearedStart(th: Heap, t: Node, copyType: Val, A: seq<Node>)
    requires Unallocated(A, 0, th)
    ensures var th' := if Falsy(copyType) && t in th then th[t := DeleteAll(th[t], th[t].keys)] else th;
            th'.Keys == th.Keys && Unallocated(A, 0, th')
  {
  }

  /** The walk from the root: objStack is [source] and keyStack ['(root)']. */
  lemma RootStackPath(sh: Heap, s: Node)
    ensures StackPath(sh, [s], ["(root)"])
  {
  }

  /** Frame of the whole call, for every accepted copyType: no target object
    disappears; a property whose name no source object has is neither added
    nor removed nor changed (except that the clearing removes it from the
    target itself); and with copyType 2 (or any truthy value other than 1)
    every property of every target object keeps its value. */
  lemma CopyKeeps(sh: Heap, th: Heap, source: Val, target: Val, copyType: Val, A: seq<Node>)
    requires source.Obj? && target.Obj? && !RejectsCopyType(copyType)
    requires Unallocated(A, 0, th)
    ensures var out := CopyObjectSpec(sh, th, source, target, copyType, A);
            && th.Keys <= out.heap.Keys
            && (forall n, k :: n in th && Unnamed(sh, k) && !(Falsy(copyType) && n == target.node) ==>
                  (Has(out.heap, n, k) <==> Has(th, n, k)) &&
                  (Has(th, n, k) ==> out.heap[n].props[k] == th[n].props[k]))
            && (!Falsy(copyType) && copyType != Num(1) ==>
                  forall n, k :: n in th && Has(th, n, k) ==>
                    Has(out.heap, n, k) && out.heap[n].props[k] == th[n].props[k])
  {
    var s, t := source.node, target.node;
    var th' := if Falsy(copyType) && t in th then th[t := DeleteAll(th[t], th[t].keys)] else th;
    ClearedStart(th, t, copyType, A);
    var r0 := Run(th', 0, []);
    var ps := copyType == Num(1);
    var rEnd := if s in sh then Merge(sh, s, [s], ["(root)"], t, ps, |sh[s].keys|, r0, A) else r0;
    if s in sh {
      MergeKeeps(sh, s, [s], ["(root)"], t, ps, |sh[s].keys|, r0, A);
    }
    assert CopyObjectSpec(sh, th, source, target, copyType, A).heap == rEnd.heap;
    KeepsOverCall(sh, th, th', t, Falsy(copyType), ps, A, rEnd);
  }

  /** The frame of the walk (`Keeps`, from the possibly cleared start `th'`)
    restated against the target graph as it was before the call. */
  lemma KeepsOverCall(sh: Heap, th: Heap, th': Heap, t: Node, clear: bool, preferSource: bool,
                      A: seq<Node>, rEnd: Run)
    requires Keeps(sh, preferSource, A, Run(th', 0, []), rEnd)
    requires th'.Keys == th.Keys && (!clear ==> th' == th)
    requires forall n :: n in th && n != t ==> th'[n] == th[n]
    ensures th.Keys <= rEnd.heap.Keys
    ensures forall n, k :: n in th && Unnamed(sh, k) && !(clear && n == t) ==>
              (Has(rEnd.heap, n, k) <==> Has(th, n, k)) &&
              (Has(th, n, k) ==> rEnd.heap[n].props[k] == th[n].props[k])
    ensures !clear && !preferSource ==>
              forall n, k :: n in th && Has(th, n, k) ==>
                Has(rEnd.heap, n, k) && rEnd.heap[n].props[k] == th[n].props[k]
  {
  }

  /** With a falsy copyType (lines 432-438, then the walk) the target object
    itself is kept, and afterwards it holds exactly the source's own names.
    Under each name is a copy of the source's value: the same scalar, or an
    object the call created that copies the source object child by child,
    grandchild by grandchild, and is left `{}` where the source refers back to
    an ancestor. No other object of the target graph changes. */
  lemma ClearsTarget(sh: Heap, th: Heap, source: Val, target: Val, copyType: Val, A: seq<Node>)
    requires source.Obj? && target.Obj? && Falsy(copyType) && target.node in th
    requires source.node in sh && AllWellFormed(sh)
    requires forall k :: k in th[target.node].props ==> k in th[target.node].keys
    requires Unallocated(A, 0, th) && CopyObjectSpec(sh, th, source, target, copyType, A).made <= |A|
    ensures var out := CopyObjectSpec(sh, th, source, target, copyType, A);
            && target.node in out.heap
            && (forall n :: n in th && n != target.node ==> n in out.heap && out.heap[n] == th[n])
            && CopiedObj(sh, out.heap, source.node, [source.node], target.node, out.heap.Keys - th.Keys)
  {
    var s, t := source.node, target.node;
    ClearingEmpties(th[t]);
    ClearedStart(th, t, copyType, A);
    var keys := sh[s].keys;
    MergeCopies(sh, s, [s], ["(root)"], t, |keys|, Run(th[t := Empty], 0, []), A);
    assert keys[|keys| - |keys|..] == keys;
    assert sh[s].WellFormed();
  }

  /** Every own property name of the source object ends up as a property of the
    target, whatever the accepted copyType, as long as the objects created were
    those of the list. */
  lemma CopiesRootNames(sh: Heap, th: Heap, source: Val, target: Val, copyType: Val, A: seq<Node>)
    requires source.Obj? && target.Obj? && !RejectsCopyType(copyType) && target.node in th
    requires source.node in sh && sh[source.node].WellFormed()
    requires Unallocated(A, 0, th) && CopyObjectSpec(sh, th, source, target, copyType, A).made <= |A|
    ensures var out := CopyObjectSpec(sh, th, source, target, copyType, A);
            forall k :: k in sh[source.node].props ==> Has(out.heap, target.node, k)
  {
    var s, t := source.node, target.node;
    var th' := if Falsy(copyType) && t in th then th[t := DeleteAll(th[t], th[t].keys)] else th;
    ClearedStart(th, t, copyType, A);
    var keys := sh[s].keys;
    MergeFills(sh, s, [s], ["(root)"], t, copyType == Num(1), |keys|, Run(th', 0, []), A);
    assert keys[|keys| - |keys|..] == keys;
  }

  /** Lines 343-376: the call reports only genuine cycles of the source (each
    warning's ancestor path is a proper prefix of its referring path and both
    lead to the same source object), and the result is 2 exactly when it
    reported one. */
  lemma ReportsAreCycles(sh: Heap, th: Heap, source: Val, target: Val, copyType: Val, A: seq<Node>)
    requires source.Obj? && target.Obj? && !RejectsCopyType(copyType)
    ensures var out := CopyObjectSpec(sh, th, source, target, copyType, A);
            && (out.code == 2 <==> out.log != [])
            && forall i :: 0 <= i < |out.log| ==> Genuine(sh, source.node, out.log[i])
  {
    var s, t := source.node, target.node;
    var th' := if Falsy(copyType) && t in th then th[t := DeleteAll(th[t], th[t].keys)] else th;
    RootStackPath(sh, s);
    MergeReports(sh, s, [s], ["(root)"], t, copyType == Num(1), |if s in sh then sh[s].keys else []|, Run(th', 0, []), A);
  }

  /** Lines 343-376, the other direction: with a falsy copyType, or with
    copyType 1 over a target graph without dangling references, a source that
    has a circular reference below its root (a chain of distinct objects from
    the root ending in a property that refers back into the chain) gives the
    result 2. Equivalently, the result 0 means the source has no circular
    reference. */
  lemma CyclesReported(sh: Heap, th: Heap, source: Val, target: Val, copyType: Val, A: seq<Node>)
    requires source.Obj? && target.Obj? && !RejectsCopyType(copyType) && (Falsy(copyType) || copyType == Num(1))
    requires source.node in sh && target.node in th && AllWellFormed(sh)
    requires Falsy(copyType) ==> forall k :: k in th[target.node].props ==> k in th[target.node].keys
    requires copyType == Num(1) ==> Closed(th)
    requires Unallocated(A, 0, th) && CopyObjectSpec(sh, th, source, target, copyType, A).made <= |A|
    requires CycleBelow(sh, source.node, [source.node])
    ensures CopyObjectSpec(sh, th, source, target, copyType, A).code == 2
  {
    var s, t := source.node, target.node;
    var th' := if Falsy(copyType) then th[t := DeleteAll(th[t], th[t].keys)] else th;
    if Falsy(copyType) {
      ClearingEmpties(th[t]);
    }
    ClearedStart(th, t, copyType, A);
    var keys := sh[s].keys;
    var k :| CycleVia(sh, s, [s], k);
    assert sh[s].WellFormed() && keys[|keys| - |keys|..] == keys;
    MergeDetects(sh, s, [s], ["(root)"], t, copyType == Num(1), |keys|, Run(th', 0, []), A);
  }

  /** Both directions together: with a falsy copyType, or copyType 1 over a
    target graph without dangling references, the result is 2 exactly when
    the source has a circular reference below its root. */
  lemma CodeTwoIffCycle(sh: Heap, th: Heap, source: Val, target: Val, copyType: Val, A: seq<Node>)
    requires source.Obj? && target.Obj? && !RejectsCopyType(copyType) && (Falsy(copyType) || copyType == Num(1))
    requires source.node in sh && target.node in th && AllWellFormed(sh)
    requires Falsy(copyType) ==> forall k :: k in th[target.node].props ==> k in th[target.node].keys
    requires copyType == Num(1) ==> Closed(th)
    requires Unallocated(A, 0, th) && CopyObjectSpec(sh, th, source, target, copyType, A).made <= |A|
    ensures CopyObjectSpec(sh, th, source, target, copyType, A).code == 2 <==> CycleBelow(sh, source.node, [source.node])
  {
    var out := CopyObjectSpec(sh, th, source, target, copyType, A);
    if CycleBelow(sh, source.node, [source.node]) {
      CyclesReported(sh, th, source, target, copyType, A);
    }
    if out.code == 2 {
      ReportsAreCycles(sh, th, source, target, copyType, A);
      GenuineIsCycle(sh, source.node, out.log[0]);
    }
  }

  /** The source of the example below: the root `s` has `x` (an object) and
    `z` (the number 5), and `x.y` is the root again. */
  ghost function CycleSource(s: Node, x: Node): Heap {
    map[s := NodeState(["x", "z"], map["x" := Obj(x), "z" := Num(5)]),
        x := NodeState(["y"], map["y" := Obj(s)])]
  }

  /** The first turn of the example at the root: the last name, `z`, is written. */
  lemma CycleExampleZ(s: Node, x: Node, t: Node, A: seq<Node>)
    requires s != x
    ensures Merge(CycleSource(s, x), s, [s], ["(root)"], t, false, 1, Run(map[t := Empty], 0, []), A)
            == Run(map[t := Empty.Put("z", Num(5))], 0, [])
  {
    var sh := CycleSource(s, x);
    var h0: Heap := map[t := Empty];
    var r0 := Run(h0, 0, []);
    var r1 := Run(h0[t := Empty.Put("z", Num(5))], 0, []);
    assert h0[t := Empty.Put("z", Num(5))] == map[t := Empty.Put("z", Num(5))];
    assert Place(Num(5), "z", t, false, r0, A) == (r1, Undefined);
    assert Follow(sh, Num(5), Undefined, [s], ["(root)"], false, "z", r1, A) == r1;
    assert Visit(sh, Num(5), [s], ["(root)"], t, false, "z", r0, A) == r1;
    assert KeyStep(sh, s, [s], ["(root)"], t, false, "z", r0, A) == r1;
  }

  /** Inside `x` of the example: `y` gets the new object `c2`, and since the
    source value is the root, the cycle is reported instead of walked. */
  lemma CycleExampleY(s: Node, x: Node, c1: Node, c2: Node, h: Heap)
    requires s != x && c1 != c2 && c1 in h && h[c1] == Empty && c2 !in h
    ensures Merge(CycleSource(s, x), x, [s, x], ["(root)", "x"], c1, false, 1, Run(h, 1, []), [c1, c2])
            == Run(h[c2 := Empty][c1 := Empty.Put("y", Obj(c2))], 2, [Report(["(root)", "x", "y"], ["(root)"])])
  {
    var sh := CycleSource(s, x);
    var A := [c1, c2];
    var r2 := Run(h, 1, []);
    var r3 := Run(h[c2 := Empty][c1 := Empty.Put("y", Obj(c2))], 2, []);
    assert Place(Obj(s), "y", c1, false, r2, A) == (r3, Obj(c2));
    var rep := Report(["(root)", "x", "y"], ["(root)"]);
    assert IndexOf([s, x], s) == 0;
    assert AncestorPath(["(root)", "x"], 0) == ["(root)"] && ["(root)", "x"] + ["y"] == ["(root)", "x", "y"];
    assert Follow(sh, Obj(s), Obj(c2), [s, x], ["(root)", "x"], false, "y", r3, A) == r3.(log := [rep]);
    assert KeyStep(sh, x, [s, x], ["(root)", "x"], c1, false, "y", r2, A) == r3.(log := [rep]);
    assert Merge(sh, x, [s, x], ["(root)", "x"], c1, false, 0, r2, A) == r2;
  }

  /** The second turn of the example at the root: `x` gets the new object
    `c1`, which is walked into. */
  lemma CycleExampleX(s: Node, x: Node, t: Node, c1: Node, c2: Node)
    requires s != x && t != c1 && t != c2 && c1 != c2
    ensures KeyStep(CycleSource(s, x), s, [s], ["(root)"], t, false, "x", Run(map[t := Empty.Put("z", Num(5))], 0, []), [c1, c2])
            == Run(map[t := Empty.Put("z", Num(5))][c1 := Empty][t := Empty.Put("z", Num(5)).Put("x", Obj(c1))]
                      [c2 := Empty][c1 := Empty.Put("y", Obj(c2))],
                   2, [Report(["(root)", "x", "y"], ["(root)"])])
  {
    var sh := CycleSource(s, x);
    var A := [c1, c2];
    var r1 := Run(map[t := Empty.Put("z", Num(5))], 0, []);
    var h2: Heap := r1.heap[c1 := Empty][t := Empty.Put("z", Num(5)).Put("x", Obj(c1))];
    var r2 := Run(h2, 1, []);
    assert Place(Obj(x), "x", t, false, r1, A) == (r2, Obj(c1));
    CycleExampleY(s, x, c1, c2, h2);
    assert [s] + [x] == [s, x] && ["(root)"] + ["x"] == ["(root)", "x"];
    var r3 := Merge(sh, x, [s, x], ["(root)", "x"], c1, false, 1, r2, A);
    assert Follow(sh, Obj(x), Obj(c1), [s], ["(root)"], false, "x", r2, A) == r3;
    assert Visit(sh, Obj(x), [s], ["(root)"], t, false, "x", r1, A) == r3;
  }

  /** A source whose child `x` refers back to the root through `y`, copied
    into an empty target with copyType 0: the scalar `z` is copied, `x` becomes
    a new object whose `y` is a new empty object (the walk stops there), one
    warning "(root).x.y = (root)" is reported, and the result is 2. */
  lemma CycleExample(s: Node, x: Node, t: Node, c1: Node, c2: Node)
    requires s != x && t != c1 && t != c2 && c1 != c2
    ensures var out := CopyObjectSpec(CycleSource(s, x), map[t := Empty], Obj(s), Obj(t), Num(0), [c1, c2]);
            && out.code == 2
            && out.log == [Report(["(root)", "x", "y"], ["(root)"])]
            && out.heap == map[t := NodeState(["z", "x"], map["z" := Num(5), "x" := Obj(c1)]),
                               c1 := NodeState(["y"], map["y" := Obj(c2)]),
                               c2 := Empty]
  {
    var sh := CycleSource(s, x);
    var h0: Heap := map[t := Empty];
    CycleExampleZ(s, x, t, [c1, c2]);
    CycleExampleX(s, x, t, c1, c2);
    assert h0[t := DeleteAll(h0[t], h0[t].keys)] == h0;
    var r0 := Run(h0, 0, []);
    var r1 := Run(map[t := Empty.Put("z", Num(5))], 0, []);
    var r3 := KeyStep(sh, s, [s], ["(root)"], t, false, "x", r1, [c1, c2]);
    assert Merge(sh, s, [s], ["(root)"], t, false, 2, r0, [c1, c2]) == r3;
    CycleHeap(t, c1, c2);
  }

  /** The target graph the example ends with, written out. */
  lemma CycleHeap(t: Node, c1: Node, c2: Node)
    requires t != c1 && t != c2 && c1 != c2
    ensures map[t := Empty.Put("z", Num(5))][c1 := Empty][t := Empty.Put("z", Num(5)).Put("x", Obj(c1))]
              [c2 := Empty][c1 := Empty.Put("y", Obj(c2))]
            == map[t := NodeState(["z", "x"], map["z" := Num(5), "x" := Obj(c1)]),
                   c1 := NodeState(["y"], map["y" := Obj(c2)]),
                   c2 := Empty]
  {
    assert Empty.Put("z", Num(5)).Put("x", Obj(c1)) == NodeState(["z", "x"], map["z" := Num(5), "x" := Obj(c1)]);
    assert Empty.Put("y", Obj(c2)) == NodeState(["y"], map["y" := Obj(c2)]);
  }

}
