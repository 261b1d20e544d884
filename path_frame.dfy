/** One object of the target graph, for a copyType that does not clear the
  target: the walk writes into an object only while it is paired with a
  source object (lines 253-395 with `targetObject` that object), and then
  only under that source object's own names. An object reached from the
  target by the names `ks` is paired only with the source object reached from
  the source by the same names. So a name of that target object which that
  source object lacks keeps its value, whatever other source objects hold.
  This needs the objects on the way to be reached only along the way: the
  target itself is referred to by no object, and each further object only by
  the one before it. A tree-shaped target has this property; a target child
  shared by two parents does not. */
module PathFrame {
  import opened JsObjects
  import opened MergeSpec
  import opened MergeProps
  import opened CycleDetection

  /** No object occurs twice on the path. */
  ghost predicate DistinctNodes(chain: seq<Node>) {
    forall i, j :: 0 <= i < j < |chain| ==> chain[i] != chain[j]
  }

  /** Every reference into `chain` is one of its own links: the first object is
    referred to by nobody, and the object at position `j > 0` only by the
    object at `j - 1`, under the name `ks[j - 1]`. */
  ghost predicate OnlyLinks(h: Heap, chain: seq<Node>, ks: seq<string>) {
    |chain| == |ks| + 1 &&
    forall n, k, j :: n in h && k in h[n].props && 0 <= j < |chain| && h[n].props[k] == Obj(chain[j]) ==>
      0 < j && n == chain[j - 1] && k == ks[j - 1]
  }

  /** What the walk keeps about the path: its objects are there, they are
    still referred to only along the path, and the allocation list is still
    new. */
  ghost predicate Guarded(h: Heap, chain: seq<Node>, ks: seq<string>, used: nat, A: seq<Node>) {
    && (forall i :: 0 <= i < |chain| ==> chain[i] in h)
    && DistinctNodes(chain) && OnlyLinks(h, chain, ks) && Unallocated(A, used, h)
  }

  /** The objects of `chain` other than `except` have in `h2` the state they had in `h`. */
  ghost predicate ChainKept(h: Heap, h2: Heap, chain: seq<Node>, except: Option<Node>) {
    forall i :: 0 <= i < |chain| && chain[i] in h && Some(chain[i]) != except ==>
      chain[i] in h2 && h2[chain[i]] == h[chain[i]]
  }

  /** Writing a state into `dst` that refers into the path only where `dst`
    already did keeps the path guarded. */
  lemma UpdateGuarded(h: Heap, dst: Node, st: NodeState, chain: seq<Node>, ks: seq<string>, used: nat, A: seq<Node>)
    requires Guarded(h, chain, ks, used, A) && dst in h
    requires forall x :: x in st.props && st.props[x].Obj? && st.props[x].node in chain ==>
               x in h[dst].props && st.props[x] == h[dst].props[x]
    ensures Guarded(h[dst := st], chain, ks, used, A)
  {
    var h2 := h[dst := st];
    forall n, k, j | n in h2 && k in h2[n].props && 0 <= j < |chain| && h2[n].props[k] == Obj(chain[j])
      ensures 0 < j && n == chain[j - 1] && k == ks[j - 1]
    {
      if n == dst {
        assert h[n].props[k] == Obj(chain[j]);
      }
    }
  }

  /** Taking the next `{}` from the allocation list keeps the path guarded. */
  lemma AllocGuarded(h: Heap, chain: seq<Node>, ks: seq<string>, used: nat, A: seq<Node>)
    requires Guarded(h, chain, ks, used, A) && used < |A|
    ensures Guarded(h[A[used] := Empty], chain, ks, used + 1, A)
  {
  }

  /** A placement writes only scalars and new objects, so the path is still
    referred to only along itself, and no object of the path other than
    `dst` changes. */
  lemma PlaceGuarded(sv: Val, k: string, dst: Node, preferSource: bool, r: Run, A: seq<Node>,
                     chain: seq<Node>, ks: seq<string>)
    requires dst in r.heap && Guarded(r.heap, chain, ks, r.used, A)
    ensures var r2 := Place(sv, k, dst, preferSource, r, A).0;
            Guarded(r2.heap, chain, ks, r2.used, A) && ChainKept(r.heap, r2.heap, chain, Some(dst))
  {
    var h := r.heap;
    var d := if preferSource && Conflicts(sv, h[dst], k) then h[dst].Delete(k) else h[dst];
    assert forall x :: x in d.props ==> x in h[dst].props && d.props[x] == h[dst].props[x];
    if !sv.Obj? {
      UpdateGuarded(h, dst, if k in d.props then d else d.Put(k, sv), chain, ks, r.used, A);
    } else if k in d.props || r.used >= |A| {
      UpdateGuarded(h, dst, d, chain, ks, r.used, A);
    } else {
      var n := A[r.used];
      assert n !in h;
      AllocGuarded(h, chain, ks, r.used, A);
      UpdateGuarded(h[n := Empty], dst, d.Put(k, Obj(n)), chain, ks, r.used + 1, A);
    }
  }

  /** What a placement hands on is an object of the path only when `dst` and
    `k` are the link to it. */
  lemma PlaceLink(sv: Val, k: string, dst: Node, preferSource: bool, r: Run, A: seq<Node>,
                  chain: seq<Node>, ks: seq<string>)
    requires dst in r.heap && Guarded(r.heap, chain, ks, r.used, A)
    ensures var tv := Place(sv, k, dst, preferSource, r, A).1;
            tv.Obj? && tv.node in chain ==>
              dst in chain && exists j :: 0 < j < |chain| && tv.node == chain[j] && dst == chain[j - 1] && k == ks[j - 1]
  {
    var h := r.heap;
    var d := if preferSource && Conflicts(sv, h[dst], k) then h[dst].Delete(k) else h[dst];
    if sv.Obj? && k in d.props {
      assert d.props[k] == h[dst].props[k];
      if h[dst].props[k].Obj? && h[dst].props[k].node in chain {
        var j :| 0 <= j < |chain| && chain[j] == h[dst].props[k].node;
        assert dst == chain[j - 1];
      }
    } else if sv.Obj? && r.used < |A| {
      assert A[r.used] !in h;
    }
  }

  /** A walk into an object off the path leaves every object of the path as
    it was, and the path still guarded. */
  lemma {:induction false} MergeOff(sh: Heap, src: Node, stack: seq<Node>, path: seq<string>, dst: Node,
                                    preferSource: bool, j: nat, r: Run, A: seq<Node>, chain: seq<Node>, ks: seq<string>)
    requires dst !in chain && Guarded(r.heap, chain, ks, r.used, A)
    ensures var r2 := Merge(sh, src, stack, path, dst, preferSource, j, r, A);
            Guarded(r2.heap, chain, ks, r2.used, A) && ChainKept(r.heap, r2.heap, chain, None)
    decreases sh.Keys - Elems(stack), j, 1, 0
  {
    if src in sh && 0 < j <= |sh[src].keys| {
      var r1 := Merge(sh, src, stack, path, dst, preferSource, j - 1, r, A);
      MergeOff(sh, src, stack, path, dst, preferSource, j - 1, r, A, chain, ks);
      KeyStepOff(sh, src, stack, path, dst, preferSource, sh[src].keys[|sh[src].keys| - j], r1, A, chain, ks);
    }
  }

  lemma {:induction false} KeyStepOff(sh: Heap, src: Node, stack: seq<Node>, path: seq<string>, dst: Node,
                                      preferSource: bool, k: string, r: Run, A: seq<Node>, chain: seq<Node>, ks: seq<string>)
    requires dst !in chain && Guarded(r.heap, chain, ks, r.used, A)
    ensures var r2 := KeyStep(sh, src, stack, path, dst, preferSource, k, r, A);
            Guarded(r2.heap, chain, ks, r2.used, A) && ChainKept(r.heap, r2.heap, chain, None)
    decreases sh.Keys - Elems(stack), 0, 1, 0
  {
    if src in sh && k in sh[src].props {
      VisitOff(sh, sh[src].props[k], stack, path, dst, preferSource, k, r, A, chain, ks);
    }
  }

  lemma {:induction false} VisitOff(sh: Heap, sv: Val, stack: seq<Node>, path: seq<string>, dst: Node,
                                    preferSource: bool, k: string, r: Run, A: seq<Node>, chain: seq<Node>, ks: seq<string>)
    requires dst !in chain && Guarded(r.heap, chain, ks, r.used, A)
    ensures var r2 := Visit(sh, sv, stack, path, dst, preferSource, k, r, A);
            Guarded(r2.heap, chain, ks, r2.used, A) && ChainKept(r.heap, r2.heap, chain, None)
    decreases sh.Keys - Elems(stack), 0, 0, 1
  {
    if dst in r.heap {
      var (r1, tv) := Place(sv, k, dst, preferSource, r, A);
      PlaceGuarded(sv, k, dst, preferSource, r, A, chain, ks);
      PlaceLink(sv, k, dst, preferSource, r, A, chain, ks);
      FollowOff(sh, sv, tv, stack, path, preferSource, k, r1, A, chain, ks);
    }
  }

  lemma {:induction false} FollowOff(sh: Heap, sv: Val, tv: Val, stack: seq<Node>, path: seq<string>,
                                     preferSource: bool, k: string, r: Run, A: seq<Node>, chain: seq<Node>, ks: seq<string>)
    requires !(tv.Obj? && tv.node in chain) && Guarded(r.heap, chain, ks, r.used, A)
    ensures var r2 := Follow(sh, sv, tv, stack, path, preferSource, k, r, A);
            Guarded(r2.heap, chain, ks, r2.used, A) && ChainKept(r.heap, r2.heap, chain, None)
    decreases sh.Keys - Elems(stack), 0, 0, 0
  {
    if sv.Obj? && tv.Obj? && sv.node !in stack && sv.node in sh {
      assert Elems(stack + [sv.node]) == Elems(stack) + {sv.node};
      MergeOff(sh, sv.node, stack + [sv.node], path + [k], tv.node, preferSource, |sh[sv.node].keys|, r, A, chain, ks);
    }
  }

  /** The properties of the source object reached from `src` by the names
    `ks`; none when the names do not lead to a source object. */
  ghost function Reached(sh: Heap, src: Node, ks: seq<string>): map<string, Val> {
    match Walk(sh, src, ks)
    case Some(m) => if m in sh then sh[m].props else map[]
    case None => map[]
  }

  /** The object `n` has, apart from the names of `P`, exactly the
    properties of `st`, with the same values. */
  ghost predicate SameOutside(h: Heap, n: Node, st: NodeState, P: map<string, Val>) {
    n in h && forall x :: x !in P ==>
      (x in h[n].props <==> x in st.props) && (x in st.props ==> h[n].props[x] == st.props[x])
  }

  /** The walk into the `i`-th object of the path, paired with the source
    object `src`: the last object of the path changes only under the names of
    the source object reached from `src` by the rest of the path's names. */
  lemma {:induction false} MergeOn(sh: Heap, src: Node, stack: seq<Node>, path: seq<string>, i: nat,
                                   preferSource: bool, j: nat, r: Run, A: seq<Node>, chain: seq<Node>, ks: seq<string>,
                                   st: NodeState)
    requires i < |chain| && Guarded(r.heap, chain, ks, r.used, A)
    requires SameOutside(r.heap, chain[|ks|], st, Reached(sh, src, ks[i..]))
    ensures var r2 := Merge(sh, src, stack, path, chain[i], preferSource, j, r, A);
            Guarded(r2.heap, chain, ks, r2.used, A) && SameOutside(r2.heap, chain[|ks|], st, Reached(sh, src, ks[i..]))
    decreases sh.Keys - Elems(stack), j, 1, 0
  {
    if src in sh && 0 < j <= |sh[src].keys| {
      var r1 := Merge(sh, src, stack, path, chain[i], preferSource, j - 1, r, A);
      MergeOn(sh, src, stack, path, i, preferSource, j - 1, r, A, chain, ks, st);
      KeyStepOn(sh, src, stack, path, i, preferSource, sh[src].keys[|sh[src].keys| - j], r1, A, chain, ks, st);
    }
  }

  lemma {:induction false} KeyStepOn(sh: Heap, src: Node, stack: seq<Node>, path: seq<string>, i: nat,
                                     preferSource: bool, k: string, r: Run, A: seq<Node>, chain: seq<Node>, ks: seq<string>,
                                     st: NodeState)
    requires i < |chain| && Guarded(r.heap, chain, ks, r.used, A)
    requires SameOutside(r.heap, chain[|ks|], st, Reached(sh, src, ks[i..]))
    ensures var r2 := KeyStep(sh, src, stack, path, chain[i], preferSource, k, r, A);
            Guarded(r2.heap, chain, ks, r2.used, A) && SameOutside(r2.heap, chain[|ks|], st, Reached(sh, src, ks[i..]))
    decreases sh.Keys - Elems(stack), 0, 1, 0
  {
    if src in sh && k in sh[src].props {
      VisitOn(sh, src, stack, path, i, preferSource, k, r, A, chain, ks, st);
    }
  }

  /** Placing under `k` into the `i`-th object of the path: the last object
    changes at most under `k`, and only when it is the one placed into;
    what is handed on is the next object of the path only when `k` is the
    link to it, and no object of the path otherwise. */
  lemma PlaceOn(sv: Val, k: string, i: nat, preferSource: bool, r: Run, A: seq<Node>,
                chain: seq<Node>, ks: seq<string>, st: NodeState, P: map<string, Val>)
    requires i < |chain| && Guarded(r.heap, chain, ks, r.used, A)
    requires i == |ks| ==> k in P
    requires SameOutside(r.heap, chain[|ks|], st, P)
    ensures var (r2, tv) := Place(sv, k, chain[i], preferSource, r, A);
            && Guarded(r2.heap, chain, ks, r2.used, A) && SameOutside(r2.heap, chain[|ks|], st, P)
            && (tv.Obj? && tv.node in chain ==> i < |ks| && k == ks[i] && tv == Obj(chain[i + 1]))
  {
    var dst, n := chain[i], chain[|ks|];
    var (r1, tv) := Place(sv, k, dst, preferSource, r, A);
    PlaceGuarded(sv, k, dst, preferSource, r, A, chain, ks);
    PlaceLink(sv, k, dst, preferSource, r, A, chain, ks);
    if i == |ks| {
      PlaceOutcome(sv, k, dst, preferSource, r, A);
    } else {
      assert r1.heap[n] == r.heap[n];
    }
    if tv.Obj? && tv.node in chain {
      var j' :| 0 < j' < |chain| && tv.node == chain[j'] && dst == chain[j' - 1] && k == ks[j' - 1];
      assert j' == i + 1;
    }
  }

  /** One turn for the name `k` of `src`: placed into the `i`-th object, then
    followed into the next object of the path when `k` is the link to it, and
    off the path otherwise. */
  lemma {:induction false} VisitOn(sh: Heap, src: Node, stack: seq<Node>, path: seq<string>, i: nat,
                                   preferSource: bool, k: string, r: Run, A: seq<Node>, chain: seq<Node>, ks: seq<string>,
                                   st: NodeState)
    requires i < |chain| && Guarded(r.heap, chain, ks, r.used, A)
    requires src in sh && k in sh[src].props
    requires SameOutside(r.heap, chain[|ks|], st, Reached(sh, src, ks[i..]))
    ensures var r2 := Visit(sh, sh[src].props[k], stack, path, chain[i], preferSource, k, r, A);
            Guarded(r2.heap, chain, ks, r2.used, A) && SameOutside(r2.heap, chain[|ks|], st, Reached(sh, src, ks[i..]))
    decreases sh.Keys - Elems(stack), 0, 0, 1
  {
    var sv, P := sh[src].props[k], Reached(sh, src, ks[i..]);
    if i == |ks| {
      assert ks[i..] == [];
    }
    var (r1, tv) := Place(sv, k, chain[i], preferSource, r, A);
    PlaceOn(sv, k, i, preferSource, r, A, chain, ks, st, P);
    if tv.Obj? && tv.node in chain {
      assert ks[i..] == [k] + ks[i + 1..];
      WalkCons(sh, src, k, ks[i + 1..]);
      FollowOn(sh, sv, stack, path, i + 1, preferSource, k, r1, A, chain, ks, st, P);
    } else {
      FollowOff(sh, sv, tv, stack, path, preferSource, k, r1, A, chain, ks);
      assert SameOutside(r1.heap, chain[|ks|], st, P);
    }
  }

  /** Following the source value `sv` into the `i`-th object of the path. */
  lemma {:induction false} FollowOn(sh: Heap, sv: Val, stack: seq<Node>, path: seq<string>, i: nat,
                                    preferSource: bool, k: string, r: Run, A: seq<Node>, chain: seq<Node>, ks: seq<string>,
                                    st: NodeState, P: map<string, Val>)
    requires i < |chain| && Guarded(r.heap, chain, ks, r.used, A)
    requires sv.Obj? ==> P == Reached(sh, sv.node, ks[i..])
    requires SameOutside(r.heap, chain[|ks|], st, P)
    ensures var r2 := Follow(sh, sv, Obj(chain[i]), stack, path, preferSource, k, r, A);
            Guarded(r2.heap, chain, ks, r2.used, A) && SameOutside(r2.heap, chain[|ks|], st, P)
    decreases sh.Keys - Elems(stack), 0, 0, 0
  {
    if sv.Obj? && sv.node !in stack && sv.node in sh {
      assert Elems(stack + [sv.node]) == Elems(stack) + {sv.node};
      MergeOn(sh, sv.node, stack + [sv.node], path + [k], i, preferSource, |sh[sv.node].keys|, r, A, chain, ks, st);
    }
  }

  /** `chain` is the objects met following the names `ks` from `t`, one
    more than the names, all distinct, and nothing refers to them except
    these links. */
  ghost predicate TreePath(h: Heap, t: Node, ks: seq<string>, chain: seq<Node>) {
    && |chain| == |ks| + 1 && chain[0] == t
    && (forall i :: 0 <= i < |chain| ==> chain[i] in h)
    && (forall i :: 0 <= i < |ks| ==> Has(h, chain[i], ks[i]) && h[chain[i]].props[ks[i]] == Obj(chain[i + 1]))
    && DistinctNodes(chain) && OnlyLinks(h, chain, ks)
  }

  /** For a copyType that does not clear (1, 2 or any other accepted truthy
    value), take a target object `n` reached from the target by the names
    `ks` along a path nothing else refers into. A property of `n` whose name
    the source object reached from the source by the same names lacks (or
    any property of `n`, when the names lead to no source object) is neither
    added, removed nor changed, even when other source objects have that
    name. With `ks` empty, `n` is the target itself. */
  lemma PathNamesKept(sh: Heap, th: Heap, source: Val, target: Val, copyType: Val, A: seq<Node>,
                      ks: seq<string>, chain: seq<Node>)
    requires source.Obj? && target.Obj? && !RejectsCopyType(copyType) && !Falsy(copyType)
    requires TreePath(th, target.node, ks, chain) && Unallocated(A, 0, th)
    ensures var out := CopyObjectSpec(sh, th, source, target, copyType, A);
            var n, P := chain[|ks|], Reached(sh, source.node, ks);
            forall x :: x !in P ==>
              (Has(out.heap, n, x) <==> Has(th, n, x)) &&
              (Has(th, n, x) ==> out.heap[n].props[x] == th[n].props[x])
  {
    var s, t := source.node, target.node;
    if s in sh {
      assert ks[0..] == ks;
      MergeOn(sh, s, [s], ["(root)"], 0, copyType == Num(1), |sh[s].keys|, Run(th, 0, []), A, chain, ks, th[chain[|ks|]]);
    }
  }
}
