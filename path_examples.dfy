/** Two worked cases for copyType 1 below the root. In the first the target is
  a tree, and `PathFrame.PathNamesKept` keeps a target-only name of a nested
  object. In the second one target object sits under two names, and a name
  that the source object paired with it under one name lacks is written
  through the other name. */
module PathExamples {
  import opened JsObjects
  import opened MergeSpec
  import opened MergeProps
  import opened PathFrame
  import opened DocExamples

  /** Source `{b: {x: 1}, y: 2}`: the root `s` and its `b`, `sb`. */
  ghost function NestedSource(s: Node, sb: Node): Heap {
    map[s := NodeState(["b", "y"], map["b" := Obj(sb), "y" := Num(2)]),
        sb := NodeState(["x"], map["x" := Num(1)])]
  }

  /** Target `{b: {y: 7}}`: the root `t` and its `b`, `tb`. */
  ghost function NestedTarget(t: Node, tb: Node): Heap {
    map[t := NodeState(["b"], map["b" := Obj(tb)]), tb := NodeState(["y"], map["y" := Num(7)])]
  }

  /** With copyType 1 the target's `b` keeps `y: 7`, although the source root
    has a `y` of its own: the source's `b`, paired with it, has no `y`. */
  lemma NestedNameKept(s: Node, sb: Node, t: Node, tb: Node, A: seq<Node>)
    requires s != sb && t != tb && Unallocated(A, 0, NestedTarget(t, tb))
    ensures var out := CopyObjectSpec(NestedSource(s, sb), NestedTarget(t, tb), Obj(s), Obj(t), Num(1), A);
            Has(out.heap, tb, "y") && out.heap[tb].props["y"] == Num(7)
  {
    var sh, th := NestedSource(s, sb), NestedTarget(t, tb);
    var ks, chain := ["b"], [t, tb];
    forall n, k, j | n in th && k in th[n].props && 0 <= j < |chain| && th[n].props[k] == Obj(chain[j])
      ensures 0 < j && n == chain[j - 1] && k == ks[j - 1]
    {
      assert n == t && k == "b";
    }
    assert TreePath(th, t, ks, chain);
    assert ks[..0] == [];
    assert Walk(sh, s, ks) == Some(sb);
    assert "y" !in Reached(sh, s, ks);
    PathNamesKept(sh, th, Obj(s), Obj(t), Num(1), A, ks, chain);
  }

  /** Source `{b: {x: 1}, c: {y: 1}}`: the root `s`, its `b`, `sb`, and its
    `c`, `sc`. */
  ghost function SharedSource(s: Node, sb: Node, sc: Node): Heap {
    map[s := NodeState(["b", "c"], map["b" := Obj(sb), "c" := Obj(sc)]),
        sb := NodeState(["x"], map["x" := Num(1)]),
        sc := NodeState(["y"], map["y" := Num(1)])]
  }

  /** Target `{b: tb, c: tb}` with `tb` an empty object under both names. */
  ghost function SharedTarget(t: Node, tb: Node): Heap {
    map[t := NodeState(["b", "c"], map["b" := Obj(tb), "c" := Obj(tb)]), tb := Empty]
  }

  /** The walk into a target object of a source object with a single scalar
    name that the target object lacks adds that name. */
  lemma MergeOneScalar(sh: Heap, src: Node, stack: seq<Node>, path: seq<string>, dst: Node,
                       k: string, v: Val, r: Run, A: seq<Node>)
    requires src in sh && sh[src] == NodeState([k], map[k := v]) && !v.Obj?
    requires dst in r.heap && k !in r.heap[dst].props
    ensures Merge(sh, src, stack, path, dst, true, 1, r, A) == r.(heap := r.heap[dst := r.heap[dst].Put(k, v)])
  {
    assert Merge(sh, src, stack, path, dst, true, 0, r, A) == r;
    TurnAdds(sh, src, stack, path, dst, true, k, r, A);
  }

  /** With copyType 1 the shared `tb` ends with `y: 1`: the walk enters it as
    the target's `c` and writes the `y` of the source's `c`, then enters it
    again as the target's `b`, whose source object has no `y`. So the
    path hypothesis of `PathNamesKept` cannot be dropped. */
  lemma SharedChildTakesName(s: Node, sb: Node, sc: Node, t: Node, tb: Node, A: seq<Node>)
    requires s != sb && s != sc && sb != sc && t != tb
    ensures var out := CopyObjectSpec(SharedSource(s, sb, sc), SharedTarget(t, tb), Obj(s), Obj(t), Num(1), A);
            && out.code == 0 && Has(out.heap, tb, "y") && out.heap[tb].props["y"] == Num(1)
            && Has(out.heap, tb, "x") && out.heap[tb].props["x"] == Num(1)
  {
    var sh, th := SharedSource(s, sb, sc), SharedTarget(t, tb);
    var r0 := Run(th, 0, []);
    // The name `c`, walked first.
    var stY := Empty.Put("y", Num(1));
    var r1 := r0.(heap := th[tb := stY]);
    assert Place(Obj(sc), "c", t, true, r0, A) == (r0, Obj(tb)) by {
      assert th[t := th[t]] == th;
    }
    MergeOneScalar(sh, sc, [s, sc], ["(root)", "c"], tb, "y", Num(1), r0, A);
    assert [s] + [sc] == [s, sc] && ["(root)"] + ["c"] == ["(root)", "c"];
    TurnDescends(sh, s, [s], ["(root)"], t, true, "c", r0, A, r0, tb, r1);
    // The name `b`, walked last.
    var stYX := stY.Put("x", Num(1));
    var r2 := r1.(heap := r1.heap[tb := stYX]);
    assert Place(Obj(sb), "b", t, true, r1, A) == (r1, Obj(tb)) by {
      assert r1.heap[t] == th[t];
      assert r1.heap[t := r1.heap[t]] == r1.heap;
    }
    MergeOneScalar(sh, sb, [s, sb], ["(root)", "b"], tb, "x", Num(1), r1, A);
    assert [s] + [sb] == [s, sb] && ["(root)"] + ["b"] == ["(root)", "b"];
    TurnDescends(sh, s, [s], ["(root)"], t, true, "b", r1, A, r1, tb, r2);
    WalkTwo(sh, s, [s], ["(root)"], t, true, A, r0, r1, r2);
  }
}
