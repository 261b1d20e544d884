/** The three worked examples of the header comment of copyObject (lines
  28-88), computed over `CopyObjectSpec`. The source is
  `{a: 1, b: {b_i: 2, b_ii: 3}, c: null}` and the target
  `{a: 2, b: {b_ii: 5, b_iii: 6}, c: {}}`. The names of an object are walked
  from the last to the first: `c`, `b`, `a` at the root and `b_ii`, then
  `b_i` below `b`. */
module DocExamples {
  import opened JsObjects
  import opened MergeSpec
  import opened CopyProps

  /** The source root, whose `b` is the object `sb`. */
  function SourceRoot(sb: Node): NodeState {
    NodeState(["a", "b", "c"], map["a" := Num(1), "b" := Obj(sb), "c" := Null])
  }

  /** The source's `b`. */
  function SourceB(): NodeState {
    NodeState(["b_i", "b_ii"], map["b_i" := Num(2), "b_ii" := Num(3)])
  }

  /** The target root before the call, whose `b` is `tb` and `c` is `tc`. */
  function TargetRoot(tb: Node, tc: Node): NodeState {
    NodeState(["a", "b", "c"], map["a" := Num(2), "b" := Obj(tb), "c" := Obj(tc)])
  }

  /** The target's `b` before the call. */
  function TargetB(): NodeState {
    NodeState(["b_ii", "b_iii"], map["b_ii" := Num(5), "b_iii" := Num(6)])
  }

  /** The source graph: the root `s` and its child `sb`. */
  ghost function ExSource(s: Node, sb: Node): Heap {
    map[s := SourceRoot(sb), sb := SourceB()]
  }

  /** The target graph before the call: the root `t`, its child `tb` under
    `b`, and the empty object `tc` under `c`. */
  ghost function ExTarget(t: Node, tb: Node, tc: Node): Heap {
    map[t := TargetRoot(tb, tc), tb := TargetB(), tc := Empty]
  }

  // Steps of the walk, for any source graph.

  /** A turn for a name whose source value is a scalar only places it. */
  lemma ScalarTurn(sh: Heap, src: Node, stack: seq<Node>, path: seq<string>, dst: Node,
                   preferSource: bool, k: string, r: Run, A: seq<Node>)
    requires src in sh && k in sh[src].props && !sh[src].props[k].Obj? && dst in r.heap
    ensures KeyStep(sh, src, stack, path, dst, preferSource, k, r, A)
            == Place(sh[src].props[k], k, dst, preferSource, r, A).0
  {
    var sv := sh[src].props[k];
    var (r1, tv) := Place(sv, k, dst, preferSource, r, A);
    assert Follow(sh, sv, tv, stack, path, preferSource, k, r1, A) == r1;
    assert Visit(sh, sv, stack, path, dst, preferSource, k, r, A) == r1;
  }

  /** A scalar for a name the target object lacks is added. */
  lemma TurnAdds(sh: Heap, src: Node, stack: seq<Node>, path: seq<string>, dst: Node,
                 preferSource: bool, k: string, r: Run, A: seq<Node>)
    requires src in sh && k in sh[src].props && !sh[src].props[k].Obj?
    requires dst in r.heap && k !in r.heap[dst].props
    ensures KeyStep(sh, src, stack, path, dst, preferSource, k, r, A)
            == r.(heap := r.heap[dst := r.heap[dst].Put(k, sh[src].props[k])])
  {
    ScalarTurn(sh, src, stack, path, dst, preferSource, k, r, A);
  }

  /** With copyType 1 a scalar that differs from the target's scalar replaces
    it, and its name moves to the end. */
  lemma TurnReplaces(sh: Heap, src: Node, stack: seq<Node>, path: seq<string>, dst: Node,
                     k: string, r: Run, A: seq<Node>)
    requires src in sh && k in sh[src].props && !sh[src].props[k].Obj?
    requires dst in r.heap && k in r.heap[dst].props && r.heap[dst].props[k] != sh[src].props[k]
    ensures KeyStep(sh, src, stack, path, dst, true, k, r, A)
            == r.(heap := r.heap[dst := r.heap[dst].Delete(k).Put(k, sh[src].props[k])])
  {
    ScalarTurn(sh, src, stack, path, dst, true, k, r, A);
    assert k !in r.heap[dst].Delete(k).props;
  }

  /** Without copyType 1 a name the target object has is left alone. */
  lemma TurnKeeps(sh: Heap, src: Node, stack: seq<Node>, path: seq<string>, dst: Node,
                  k: string, r: Run, A: seq<Node>)
    requires src in sh && k in sh[src].props && !sh[src].props[k].Obj?
    requires dst in r.heap && k in r.heap[dst].props
    ensures KeyStep(sh, src, stack, path, dst, false, k, r, A) == r
  {
    ScalarTurn(sh, src, stack, path, dst, false, k, r, A);
    assert r.heap[dst := r.heap[dst]] == r.heap;
  }

  /** A turn for a name whose source value is an object not on the stack:
    once placed, the object the target holds under the name is merged with
    the source object. */
  lemma TurnDescends(sh: Heap, src: Node, stack: seq<Node>, path: seq<string>, dst: Node,
                     preferSource: bool, k: string, r: Run, A: seq<Node>, rp: Run, m: Node, r': Run)
    requires src in sh && k in sh[src].props && sh[src].props[k].Obj? && dst in r.heap
    requires var x := sh[src].props[k].node;
             x !in stack && x in sh && Place(Obj(x), k, dst, preferSource, r, A) == (rp, Obj(m))
             && Merge(sh, x, stack + [x], path + [k], m, preferSource, |sh[x].keys|, rp, A) == r'
    ensures KeyStep(sh, src, stack, path, dst, preferSource, k, r, A) == r'
  {
    var x := sh[src].props[k].node;
    assert Follow(sh, Obj(x), Obj(m), stack, path, preferSource, k, rp, A) == r';
  }

  /** The walk of an object with two names: the last, then the first. */
  lemma WalkTwo(sh: Heap, src: Node, stack: seq<Node>, path: seq<string>, dst: Node,
                preferSource: bool, A: seq<Node>, r0: Run, r1: Run, r2: Run)
    requires src in sh && |sh[src].keys| == 2
    requires KeyStep(sh, src, stack, path, dst, preferSource, sh[src].keys[1], r0, A) == r1
    requires KeyStep(sh, src, stack, path, dst, preferSource, sh[src].keys[0], r1, A) == r2
    ensures Merge(sh, src, stack, path, dst, preferSource, 2, r0, A) == r2
  {
    assert Merge(sh, src, stack, path, dst, preferSource, 1, r0, A) == r1;
  }

  /** The walk of an object with three names, from the last to the first. */
  lemma WalkThree(sh: Heap, src: Node, stack: seq<Node>, path: seq<string>, dst: Node,
                  preferSource: bool, A: seq<Node>, r0: Run, r1: Run, r2: Run, r3: Run)
    requires src in sh && |sh[src].keys| == 3
    requires KeyStep(sh, src, stack, path, dst, preferSource, sh[src].keys[2], r0, A) == r1
    requires KeyStep(sh, src, stack, path, dst, preferSource, sh[src].keys[1], r1, A) == r2
    requires KeyStep(sh, src, stack, path, dst, preferSource, sh[src].keys[0], r2, A) == r3
    ensures Merge(sh, src, stack, path, dst, preferSource, 3, r0, A) == r3
  {
    assert Merge(sh, src, stack, path, dst, preferSource, 1, r0, A) == r1;
    assert Merge(sh, src, stack, path, dst, preferSource, 2, r0, A) == r2;
  }

  /** The whole call, once the walk from the root is known. */
  lemma WholeCall(sh: Heap, th: Heap, s: Node, t: Node, copyType: Val, A: seq<Node>, h0: Heap, r: Run)
    requires s in sh && !RejectsCopyType(copyType)
    requires h0 == if Falsy(copyType) && t in th then th[t := DeleteAll(th[t], th[t].keys)] else th
    requires Merge(sh, s, [s], ["(root)"], t, copyType == Num(1), |sh[s].keys|, Run(h0, 0, []), A) == r
    ensures var out := CopyObjectSpec(sh, th, Obj(s), Obj(t), copyType, A);
            out.code == (if r.log == [] then 0 else 2) && out.heap == r.heap && out.log == r.log && out.made == r.used
  {
  }

  // The example, step by step.

  /** copyType 0, inside `b`: the new object `n` receives `b_ii`, then `b_i`. */
  lemma Example0B(sh: Heap, s: Node, sb: Node, n: Node, h: Heap, A: seq<Node>)
    requires sb in sh && sh[sb] == SourceB() && n in h && h[n] == Empty
    ensures Merge(sh, sb, [s, sb], ["(root)", "b"], n, false, 2, Run(h, 1, []), A)
            == Run(h[n := NodeState(["b_ii", "b_i"], map["b_i" := Num(2), "b_ii" := Num(3)])], 1, [])
  {
    var half := NodeState(["b_ii"], map["b_ii" := Num(3)]);
    var full := NodeState(["b_ii", "b_i"], map["b_i" := Num(2), "b_ii" := Num(3)]);
    assert Empty.Put("b_ii", Num(3)) == half;
    assert half.Put("b_i", Num(2)) == full;
    TurnAdds(sh, sb, [s, sb], ["(root)", "b"], n, false, "b_ii", Run(h, 1, []), A);
    TurnAdds(sh, sb, [s, sb], ["(root)", "b"], n, false, "b_i", Run(h[n := half], 1, []), A);
    assert h[n := half][n := full] == h[n := full];
    WalkTwo(sh, sb, [s, sb], ["(root)", "b"], n, false, A, Run(h, 1, []), Run(h[n := half], 1, []),
            Run(h[n := full], 1, []));
  }

  /** copyType 0, the root's `b`: the object `n` is created under it, then
    filled. */
  lemma Example0RootB(sh: Heap, s: Node, sb: Node, t: Node, n: Node, h1: Heap)
    requires s in sh && sh[s] == SourceRoot(sb) && sb in sh && sh[sb] == SourceB() && s != sb
    requires t != n && t in h1 && h1[t] == NodeState(["c"], map["c" := Null]) && n !in h1
    ensures KeyStep(sh, s, [s], ["(root)"], t, false, "b", Run(h1, 0, []), [n])
            == Run(h1[n := NodeState(["b_ii", "b_i"], map["b_i" := Num(2), "b_ii" := Num(3)])]
                     [t := NodeState(["c", "b"], map["b" := Obj(n), "c" := Null])], 1, [])
  {
    var st := NodeState(["c", "b"], map["b" := Obj(n), "c" := Null]);
    assert NodeState(["c"], map["c" := Null]).Put("b", Obj(n)) == st;
    var hp := h1[n := Empty][t := st];
    assert Place(Obj(sb), "b", t, false, Run(h1, 0, []), [n]) == (Run(hp, 1, []), Obj(n));
    Example0B(sh, s, sb, n, hp, [n]);
    assert [s] + [sb] == [s, sb] && ["(root)"] + ["b"] == ["(root)", "b"];
    var full := NodeState(["b_ii", "b_i"], map["b_i" := Num(2), "b_ii" := Num(3)]);
    TurnDescends(sh, s, [s], ["(root)"], t, false, "b", Run(h1, 0, []), [n], Run(hp, 1, []), n,
                 Run(hp[n := full], 1, []));
    assert h1[n := Empty][t := st][n := full] == h1[n := full][t := st];
  }

  /** copyType 0 at the root, after the clearing, the name `c`: null is added. */
  lemma Example0RootC(sh: Heap, s: Node, sb: Node, t: Node, h0: Heap, A: seq<Node>)
    requires s in sh && sh[s] == SourceRoot(sb) && t in h0 && h0[t] == Empty
    ensures KeyStep(sh, s, [s], ["(root)"], t, false, "c", Run(h0, 0, []), A)
            == Run(h0[t := NodeState(["c"], map["c" := Null])], 0, [])
  {
    assert Empty.Put("c", Null) == NodeState(["c"], map["c" := Null]);
    TurnAdds(sh, s, [s], ["(root)"], t, false, "c", Run(h0, 0, []), A);
  }

  /** copyType 0 at the root, the name `a`, walked last: 1 is added. */
  lemma Example0RootA(sh: Heap, s: Node, sb: Node, t: Node, n: Node, h2: Heap, A: seq<Node>)
    requires s in sh && sh[s] == SourceRoot(sb)
    requires t in h2 && h2[t] == NodeState(["c", "b"], map["b" := Obj(n), "c" := Null])
    ensures KeyStep(sh, s, [s], ["(root)"], t, false, "a", Run(h2, 1, []), A)
            == Run(h2[t := NodeState(["c", "b", "a"], map["a" := Num(1), "b" := Obj(n), "c" := Null])], 1, [])
  {
    assert NodeState(["c", "b"], map["b" := Obj(n), "c" := Null]).Put("a", Num(1))
           == NodeState(["c", "b", "a"], map["a" := Num(1), "b" := Obj(n), "c" := Null]);
    TurnAdds(sh, s, [s], ["(root)"], t, false, "a", Run(h2, 1, []), A);
  }

  /** copyType 0 at the root, after the clearing: `c` gets null, `b` the new
    object `n`, and `a` gets 1. */
  lemma Example0Root(sh: Heap, s: Node, sb: Node, t: Node, n: Node, h0: Heap)
    requires s in sh && sh[s] == SourceRoot(sb) && sb in sh && sh[sb] == SourceB() && s != sb
    requires t != n && t in h0 && h0[t] == Empty && n !in h0
    ensures Merge(sh, s, [s], ["(root)"], t, false, 3, Run(h0, 0, []), [n])
            == Run(h0[n := NodeState(["b_ii", "b_i"], map["b_i" := Num(2), "b_ii" := Num(3)])]
                     [t := NodeState(["c", "b", "a"], map["a" := Num(1), "b" := Obj(n), "c" := Null])], 1, [])
  {
    var full := NodeState(["b_ii", "b_i"], map["b_i" := Num(2), "b_ii" := Num(3)]);
    var st3 := NodeState(["c", "b", "a"], map["a" := Num(1), "b" := Obj(n), "c" := Null]);
    var h1: Heap := h0[t := NodeState(["c"], map["c" := Null])];
    var h2: Heap := h1[n := full][t := NodeState(["c", "b"], map["b" := Obj(n), "c" := Null])];
    assert h2[t := st3] == h0[n := full][t := st3];
    Example0RootC(sh, s, sb, t, h0, [n]);
    Example0RootB(sh, s, sb, t, n, h1);
    Example0RootA(sh, s, sb, t, n, h2, [n]);
    WalkThree(sh, s, [s], ["(root)"], t, false, [n], Run(h0, 0, []), Run(h1, 0, []), Run(h2, 1, []),
              Run(h0[n := full][t := st3], 1, []));
  }

  /** copyType 0, the whole call over any graphs holding the example's objects. */
  lemma Example0Call(sh: Heap, th: Heap, s: Node, sb: Node, t: Node, n: Node)
    requires s in sh && sh[s] == SourceRoot(sb) && sb in sh && sh[sb] == SourceB() && s != sb
    requires t != n && t in th && n !in th
    requires forall k :: k in th[t].props ==> k in th[t].keys
    ensures var out := CopyObjectSpec(sh, th, Obj(s), Obj(t), Num(0), [n]);
            && out.code == 0 && out.log == [] && out.made == 1
            && out.heap == th[n := NodeState(["b_ii", "b_i"], map["b_i" := Num(2), "b_ii" := Num(3)])]
                             [t := NodeState(["c", "b", "a"], map["a" := Num(1), "b" := Obj(n), "c" := Null])]
  {
    ClearingEmpties(th[t]);
    var h0 := th[t := Empty];
    Example0Root(sh, s, sb, t, n, h0);
    var full := NodeState(["b_ii", "b_i"], map["b_i" := Num(2), "b_ii" := Num(3)]);
    var st3 := NodeState(["c", "b", "a"], map["a" := Num(1), "b" := Obj(n), "c" := Null]);
    assert h0[n := full][t := st3] == th[n := full][t := st3];
    WholeCall(sh, th, s, t, Num(0), [n], h0, Run(th[n := full][t := st3], 1, []));
  }

  /** copyType 0 (lines 32-37): the target's own properties are deleted, and
    afterwards the target is `{a: 1, b: {b_i: 2, b_ii: 3}, c: null}`, with `b`
    a new object. The old `b` and `c` objects are left as they were (only no
    longer referenced), and the result is 0. */
  lemma Example0(s: Node, sb: Node, t: Node, tb: Node, tc: Node, n: Node)
    requires s != sb && t != tb && t != tc && tb != tc && n != t && n != tb && n != tc
    ensures var out := CopyObjectSpec(ExSource(s, sb), ExTarget(t, tb, tc), Obj(s), Obj(t), Num(0), [n]);
            && out.code == 0 && out.log == [] && out.made == 1
            && out.heap == ExTarget(t, tb, tc)
                             [n := NodeState(["b_ii", "b_i"], map["b_i" := Num(2), "b_ii" := Num(3)])]
                             [t := NodeState(["c", "b", "a"], map["a" := Num(1), "b" := Obj(n), "c" := Null])]
  {
    Example0Call(ExSource(s, sb), ExTarget(t, tb, tc), s, sb, t, n);
  }

  /** copyType 1, inside `b`: `b_ii` conflicts (3 against 5) and is replaced;
    `b_i` is added; `b_iii` stays. */
  lemma Example1B(sh: Heap, s: Node, sb: Node, tb: Node, h: Heap, A: seq<Node>)
    requires sb in sh && sh[sb] == SourceB() && tb in h && h[tb] == TargetB()
    ensures Merge(sh, sb, [s, sb], ["(root)", "b"], tb, true, 2, Run(h, 0, []), A)
            == Run(h[tb := NodeState(["b_iii", "b_ii", "b_i"], map["b_i" := Num(2), "b_ii" := Num(3), "b_iii" := Num(6)])], 0, [])
  {
    var half := NodeState(["b_iii", "b_ii"], map["b_ii" := Num(3), "b_iii" := Num(6)]);
    var full := NodeState(["b_iii", "b_ii", "b_i"], map["b_i" := Num(2), "b_ii" := Num(3), "b_iii" := Num(6)]);
    assert TargetB().Delete("b_ii") == NodeState(["b_iii"], map["b_iii" := Num(6)]) by {
      assert Without(["b_ii", "b_iii"], "b_ii") == ["b_iii"];
      assert map["b_ii" := Num(5), "b_iii" := Num(6)] - {"b_ii"} == map["b_iii" := Num(6)];
    }
    assert NodeState(["b_iii"], map["b_iii" := Num(6)]).Put("b_ii", Num(3)) == half;
    assert half.Put("b_i", Num(2)) == full;
    TurnReplaces(sh, sb, [s, sb], ["(root)", "b"], tb, "b_ii", Run(h, 0, []), A);
    TurnAdds(sh, sb, [s, sb], ["(root)", "b"], tb, true, "b_i", Run(h[tb := half], 0, []), A);
    assert h[tb := half][tb := full] == h[tb := full];
    WalkTwo(sh, sb, [s, sb], ["(root)", "b"], tb, true, A, Run(h, 0, []), Run(h[tb := half], 0, []),
            Run(h[tb := full], 0, []));
  }

  /** copyType 1, the root's `b`: both values are objects, so the target's
    own `b` is kept and merged with the source's. */
  lemma Example1RootB(sh: Heap, s: Node, sb: Node, t: Node, tb: Node, h1: Heap, A: seq<Node>)
    requires s in sh && sh[s] == SourceRoot(sb) && sb in sh && sh[sb] == SourceB() && s != sb
    requires t in h1 && tb in h1 && "b" in h1[t].props && h1[t].props["b"] == Obj(tb) && h1[tb] == TargetB()
    ensures KeyStep(sh, s, [s], ["(root)"], t, true, "b", Run(h1, 0, []), A)
            == Run(h1[tb := NodeState(["b_iii", "b_ii", "b_i"], map["b_i" := Num(2), "b_ii" := Num(3), "b_iii" := Num(6)])], 0, [])
  {
    assert !Conflicts(Obj(sb), h1[t], "b");
    assert h1[t := h1[t]] == h1;
    assert Place(Obj(sb), "b", t, true, Run(h1, 0, []), A) == (Run(h1, 0, []), Obj(tb));
    Example1B(sh, s, sb, tb, h1, A);
    assert [s] + [sb] == [s, sb] && ["(root)"] + ["b"] == ["(root)", "b"];
    var full := NodeState(["b_iii", "b_ii", "b_i"], map["b_i" := Num(2), "b_ii" := Num(3), "b_iii" := Num(6)]);
    TurnDescends(sh, s, [s], ["(root)"], t, true, "b", Run(h1, 0, []), A, Run(h1, 0, []), tb,
                 Run(h1[tb := full], 0, []));
  }

  /** copyType 1 at the root, the name `c`: null against `{}` conflicts, so
    the name is deleted and written again with null. */
  lemma Example1RootC(sh: Heap, s: Node, sb: Node, t: Node, tb: Node, tc: Node, h: Heap, A: seq<Node>)
    requires s in sh && sh[s] == SourceRoot(sb) && t in h && h[t] == TargetRoot(tb, tc)
    ensures KeyStep(sh, s, [s], ["(root)"], t, true, "c", Run(h, 0, []), A)
            == Run(h[t := NodeState(["a", "b", "c"], map["a" := Num(2), "b" := Obj(tb), "c" := Null])], 0, [])
  {
    var mid := NodeState(["a", "b"], map["a" := Num(2), "b" := Obj(tb)]);
    assert TargetRoot(tb, tc).Delete("c") == mid by {
      assert Without(["a", "b", "c"], "c") == ["a", "b"];
      assert map["a" := Num(2), "b" := Obj(tb), "c" := Obj(tc)] - {"c"} == mid.props;
    }
    assert mid.Put("c", Null) == NodeState(["a", "b", "c"], map["a" := Num(2), "b" := Obj(tb), "c" := Null]);
    TurnReplaces(sh, s, [s], ["(root)"], t, "c", Run(h, 0, []), A);
  }

  /** The root's table under copyType 1 when `a` is deleted and written
    again: the name moves to the end of the list. */
  lemma ReplaceA(tb: Node)
    ensures NodeState(["a", "b", "c"], map["a" := Num(2), "b" := Obj(tb), "c" := Null]).Delete("a")
            == NodeState(["b", "c"], map["b" := Obj(tb), "c" := Null])
    ensures NodeState(["b", "c"], map["b" := Obj(tb), "c" := Null]).Put("a", Num(1))
            == NodeState(["b", "c", "a"], map["a" := Num(1), "b" := Obj(tb), "c" := Null])
  {
    assert Without(["a", "b", "c"], "a") == ["b", "c"];
    assert map["a" := Num(2), "b" := Obj(tb), "c" := Null] - {"a"} == map["b" := Obj(tb), "c" := Null];
  }

  /** copyType 1 at the root, the name `a`: 1 against 2 conflicts, so the
    name is deleted and written again, last. */
  lemma Example1RootA(sh: Heap, s: Node, sb: Node, t: Node, tb: Node, h: Heap, A: seq<Node>)
    requires s in sh && sh[s] == SourceRoot(sb)
    requires t in h && h[t] == NodeState(["a", "b", "c"], map["a" := Num(2), "b" := Obj(tb), "c" := Null])
    ensures KeyStep(sh, s, [s], ["(root)"], t, true, "a", Run(h, 0, []), A)
            == Run(h[t := NodeState(["b", "c", "a"], map["a" := Num(1), "b" := Obj(tb), "c" := Null])], 0, [])
  {
    ReplaceA(tb);
    TurnReplaces(sh, s, [s], ["(root)"], t, "a", Run(h, 0, []), A);
  }

  /** copyType 1, the walk from the root: `c` (null against `{}`) becomes
    null; `b` (both objects) is merged into `tb`; `a` (1 against 2) becomes 1. */
  lemma Example1Root(sh: Heap, th: Heap, s: Node, sb: Node, t: Node, tb: Node, tc: Node, A: seq<Node>)
    requires s in sh && sh[s] == SourceRoot(sb) && sb in sh && sh[sb] == SourceB() && s != sb
    requires t in th && th[t] == TargetRoot(tb, tc) && tb in th && th[tb] == TargetB() && t != tb
    ensures Merge(sh, s, [s], ["(root)"], t, true, 3, Run(th, 0, []), A)
            == Run(th[tb := NodeState(["b_iii", "b_ii", "b_i"], map["b_i" := Num(2), "b_ii" := Num(3), "b_iii" := Num(6)])]
                     [t := NodeState(["b", "c", "a"], map["a" := Num(1), "b" := Obj(tb), "c" := Null])], 0, [])
  {
    var st1 := NodeState(["a", "b", "c"], map["a" := Num(2), "b" := Obj(tb), "c" := Null]);
    var st3 := NodeState(["b", "c", "a"], map["a" := Num(1), "b" := Obj(tb), "c" := Null]);
    var full := NodeState(["b_iii", "b_ii", "b_i"], map["b_i" := Num(2), "b_ii" := Num(3), "b_iii" := Num(6)]);
    var h1: Heap := th[t := st1];
    var h2: Heap := h1[tb := full];
    assert h2[t := st3] == th[tb := full][t := st3];
    Example1RootC(sh, s, sb, t, tb, tc, th, A);
    Example1RootB(sh, s, sb, t, tb, h1, A);
    Example1RootA(sh, s, sb, t, tb, h2, A);
    WalkThree(sh, s, [s], ["(root)"], t, true, A, Run(th, 0, []), Run(h1, 0, []), Run(h2, 0, []),
              Run(th[tb := full][t := st3], 0, []));
  }

  /** copyType 1, the whole call over any graphs holding the example's objects. */
  lemma Example1Call(sh: Heap, th: Heap, s: Node, sb: Node, t: Node, tb: Node, tc: Node, A: seq<Node>)
    requires s in sh && sh[s] == SourceRoot(sb) && sb in sh && sh[sb] == SourceB() && s != sb
    requires t in th && th[t] == TargetRoot(tb, tc) && tb in th && th[tb] == TargetB() && t != tb
    ensures var out := CopyObjectSpec(sh, th, Obj(s), Obj(t), Num(1), A);
            && out.code == 0 && out.log == [] && out.made == 0
            && out.heap == th[tb := NodeState(["b_iii", "b_ii", "b_i"], map["b_i" := Num(2), "b_ii" := Num(3), "b_iii" := Num(6)])]
                             [t := NodeState(["b", "c", "a"], map["a" := Num(1), "b" := Obj(tb), "c" := Null])]
  {
    Example1Root(sh, th, s, sb, t, tb, tc, A);
    var full := NodeState(["b_iii", "b_ii", "b_i"], map["b_i" := Num(2), "b_ii" := Num(3), "b_iii" := Num(6)]);
    var st3 := NodeState(["b", "c", "a"], map["a" := Num(1), "b" := Obj(tb), "c" := Null]);
    WholeCall(sh, th, s, t, Num(1), A, th, Run(th[tb := full][t := st3], 0, []));
  }

  /** copyType 1 (lines 43-64): afterwards the target is
    `{a: 1, b: {b_i: 2, b_ii: 3, b_iii: 6}, c: null}` with `b` still the
    target's own object, and the result is 0. The header comment prints
    `"c": 4` in the result, where its own explanation and the code give null,
    and speaks of a `b_ii` value of 6 where the target holds 5. */
  lemma Example1(s: Node, sb: Node, t: Node, tb: Node, tc: Node, A: seq<Node>)
    requires s != sb && t != tb && t != tc && tb != tc
    ensures var out := CopyObjectSpec(ExSource(s, sb), ExTarget(t, tb, tc), Obj(s), Obj(t), Num(1), A);
            && out.code == 0 && out.log == [] && out.made == 0
            && out.heap == ExTarget(t, tb, tc)
                             [tb := NodeState(["b_iii", "b_ii", "b_i"], map["b_i" := Num(2), "b_ii" := Num(3), "b_iii" := Num(6)])]
                             [t := NodeState(["b", "c", "a"], map["a" := Num(1), "b" := Obj(tb), "c" := Null])]
            && out.heap[t].props["c"] == Null && out.heap[tb].props["b_ii"] == Num(3)
  {
    Example1Call(ExSource(s, sb), ExTarget(t, tb, tc), s, sb, t, tb, tc, A);
  }

  /** copyType 2, inside `b`: `b_ii` is kept at 5 and `b_i` is added. */
  lemma Example2B(sh: Heap, s: Node, sb: Node, tb: Node, h: Heap, A: seq<Node>)
    requires sb in sh && sh[sb] == SourceB() && tb in h && h[tb] == TargetB()
    ensures Merge(sh, sb, [s, sb], ["(root)", "b"], tb, false, 2, Run(h, 0, []), A)
            == Run(h[tb := NodeState(["b_ii", "b_iii", "b_i"], map["b_i" := Num(2), "b_ii" := Num(5), "b_iii" := Num(6)])], 0, [])
  {
    var full := NodeState(["b_ii", "b_iii", "b_i"], map["b_i" := Num(2), "b_ii" := Num(5), "b_iii" := Num(6)]);
    assert TargetB().Put("b_i", Num(2)) == full;
    TurnKeeps(sh, sb, [s, sb], ["(root)", "b"], tb, "b_ii", Run(h, 0, []), A);
    TurnAdds(sh, sb, [s, sb], ["(root)", "b"], tb, false, "b_i", Run(h, 0, []), A);
    WalkTwo(sh, sb, [s, sb], ["(root)", "b"], tb, false, A, Run(h, 0, []), Run(h, 0, []),
            Run(h[tb := full], 0, []));
  }

  /** copyType 2, the root's `b`: the target's own `b` is kept and merged. */
  lemma Example2RootB(sh: Heap, s: Node, sb: Node, t: Node, tb: Node, h: Heap, A: seq<Node>)
    requires s in sh && sh[s] == SourceRoot(sb) && sb in sh && sh[sb] == SourceB() && s != sb
    requires t in h && tb in h && "b" in h[t].props && h[t].props["b"] == Obj(tb) && h[tb] == TargetB()
    ensures KeyStep(sh, s, [s], ["(root)"], t, false, "b", Run(h, 0, []), A)
            == Run(h[tb := NodeState(["b_ii", "b_iii", "b_i"], map["b_i" := Num(2), "b_ii" := Num(5), "b_iii" := Num(6)])], 0, [])
  {
    assert h[t := h[t]] == h;
    assert Place(Obj(sb), "b", t, false, Run(h, 0, []), A) == (Run(h, 0, []), Obj(tb));
    Example2B(sh, s, sb, tb, h, A);
    assert [s] + [sb] == [s, sb] && ["(root)"] + ["b"] == ["(root)", "b"];
    var full := NodeState(["b_ii", "b_iii", "b_i"], map["b_i" := Num(2), "b_ii" := Num(5), "b_iii" := Num(6)]);
    TurnDescends(sh, s, [s], ["(root)"], t, false, "b", Run(h, 0, []), A, Run(h, 0, []), tb,
                 Run(h[tb := full], 0, []));
  }

  /** copyType 2, the whole call over any graphs holding the example's
    objects: `c` and `a` are kept, and `b` is merged into `tb`. */
  lemma Example2Call(sh: Heap, th: Heap, s: Node, sb: Node, t: Node, tb: Node, tc: Node, A: seq<Node>)
    requires s in sh && sh[s] == SourceRoot(sb) && sb in sh && sh[sb] == SourceB() && s != sb
    requires t in th && th[t] == TargetRoot(tb, tc) && tb in th && th[tb] == TargetB()
    ensures var out := CopyObjectSpec(sh, th, Obj(s), Obj(t), Num(2), A);
            && out.code == 0 && out.log == [] && out.made == 0
            && out.heap == th[tb := NodeState(["b_ii", "b_iii", "b_i"], map["b_i" := Num(2), "b_ii" := Num(5), "b_iii" := Num(6)])]
  {
    var full := NodeState(["b_ii", "b_iii", "b_i"], map["b_i" := Num(2), "b_ii" := Num(5), "b_iii" := Num(6)]);
    var h2: Heap := th[tb := full];
    TurnKeeps(sh, s, [s], ["(root)"], t, "c", Run(th, 0, []), A);
    Example2RootB(sh, s, sb, t, tb, th, A);
    TurnKeeps(sh, s, [s], ["(root)"], t, "a", Run(h2, 0, []), A);
    WalkThree(sh, s, [s], ["(root)"], t, false, A, Run(th, 0, []), Run(th, 0, []), Run(h2, 0, []),
              Run(h2, 0, []));
    WholeCall(sh, th, s, t, Num(2), A, th, Run(h2, 0, []));
  }

  /** copyType 2 (lines 66-88): afterwards the target is
    `{a: 2, b: {b_i: 2, b_ii: 5, b_iii: 6}, c: {}}`: only `b_i` was added, and
    the result is 0. */
  lemma Example2(s: Node, sb: Node, t: Node, tb: Node, tc: Node, A: seq<Node>)
    requires s != sb && t != tb && t != tc && tb != tc
    ensures var out := CopyObjectSpec(ExSource(s, sb), ExTarget(t, tb, tc), Obj(s), Obj(t), Num(2), A);
            && out.code == 0 && out.log == [] && out.made == 0
            && out.heap == ExTarget(t, tb, tc)[tb := NodeState(["b_ii", "b_iii", "b_i"],
                                                map["b_i" := Num(2), "b_ii" := Num(5), "b_iii" := Num(6)])]
  {
    Example2Call(ExSource(s, sb), ExTarget(t, tb, tc), s, sb, t, tb, tc, A);
  }
}
