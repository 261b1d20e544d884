/** What copyObject computes, as pure functions over a `Heap` value.
  `sh` is the source objects (never changed), a `Run` carries the target
  objects, the number of `{}` objects created so far and the cycle reports.
  Created objects are taken in order from an allocation list `A`: the
  imperative model returns the list of objects it actually allocated. */
module MergeSpec {
  import opened JsObjects

  /** One console warning of line 374: the dotted path of the referring key
    and the dotted path of the ancestor it refers back to, as key lists. */
  datatype Report = Report(referrer: seq<string>, ancestor: seq<string>)

  datatype Run = Run(heap: Heap, used: nat, log: seq<Report>)

  /** The result of the whole call: code 0, 1 or 2, the target objects, the
    warnings, and how many `{}` objects were created. */
  datatype Outcome = Outcome(code: int, heap: Heap, log: seq<Report>, made: nat)

  function Elems(s: seq<Node>): set<Node> {
    set x | x in s
  }

  /** The objects still to be taken from the allocation list `A`, from
    position `used` on, are new: none is
    in the heap yet and no two are the same. */
  ghost predicate Unallocated(A: seq<Node>, used: nat, h: Heap) {
    && (forall i :: used <= i < |A| ==> A[i] !in h)
    && (forall i, j :: used <= i < j < |A| ==> A[i] != A[j])
  }

  /** `Array.prototype.indexOf` by reference identity: the first index, or -1. */
  function IndexOf(s: seq<Node>, x: Node): (i: int)
    ensures -1 <= i < |s|
    ensures i == -1 <==> x !in s
    ensures 0 <= i ==> s[i] == x && x !in s[..i]
  {
    if s == [] then -1
    else if s[0] == x then 0
    else
      var j := IndexOf(s[1..], x);
      if j == -1 then -1
      else
        assert s[..j + 1] == [s[0]] + s[1..][..j];
        j + 1
  }

  /** `keyStack.slice(0, i + 1)`. */
  function AncestorPath(path: seq<string>, i: int): (p: seq<string>)
    requires 0 <= i
    ensures p <= path
    ensures i < |path| ==> |p| == i + 1
  {
    if i < |path| then path[..i + 1] else path
  }

  /** The deletion test of lines 294-300 (without the copyType test): the target
    has the key, the values differ (`!==`), and they are not both non-null objects. */
  predicate Conflicts(sv: Val, d: NodeState, k: string): (b: bool)
    ensures sv.Obj? ==> (b <==> k in d.props && !d.props[k].Obj?)
    ensures !sv.Obj? ==> (b <==> k in d.props && d.props[k] != sv)
  {
    k in d.props && sv != d.props[k] && !(sv.Obj? && d.props[k].Obj?)
  }

  /** Lines 294-315 and 382-395 for one key: the conflict deletion when
    `preferSource` (copyType === 1), then either the scalar written if the key
    is absent, or an empty object created if the key is absent. The second
    component is what the target holds under the key afterwards (Undefined when
    no object could be created because the allocation list ran out). */
  function Place(sv: Val, k: string, dst: Node, preferSource: bool, r: Run, A: seq<Node>): (res: (Run, Val))
    requires dst in r.heap
    ensures res.0.log == r.log && r.used <= res.0.used <= r.used + 1
    ensures r.heap.Keys <= res.0.heap.Keys && dst in res.0.heap
    ensures res.1.Obj? ==> sv.Obj? && k in res.0.heap[dst].props && res.0.heap[dst].props[k] == res.1
  {
    var d := if preferSource && Conflicts(sv, r.heap[dst], k) then r.heap[dst].Delete(k) else r.heap[dst];
    if !sv.Obj? then
      (r.(heap := r.heap[dst := if k in d.props then d else d.Put(k, sv)]), Undefined)
    else if k in d.props then
      (r.(heap := r.heap[dst := d]), d.props[k])
    else if r.used < |A| then
      var n := A[r.used];
      (Run(r.heap[n := Empty][dst := d.Put(k, Obj(n))], r.used + 1, r.log), Obj(n))
    else
      (Run(r.heap[dst := d], r.used + 1, r.log), Undefined)
  }

  /** copyObjectRecursion(src, dst) restricted to the last `j` names of the
    snapshot `sh[src].keys`, walked from the end as `while(keyIndex--)` does.
    `stack` and `path` are objStack and keyStack. */
  function Merge(sh: Heap, src: Node, stack: seq<Node>, path: seq<string>, dst: Node,
                 preferSource: bool, j: nat, r: Run, A: seq<Node>): (r': Run)

    ensures r.used <= r'.used
    decreases sh.Keys - Elems(stack), j, 1, 0
  {
    if src !in sh || j == 0 || j > |sh[src].keys| then r
    else
      var r1 := Merge(sh, src, stack, path, dst, preferSource, j - 1, r, A);
      KeyStep(sh, src, stack, path, dst, preferSource, sh[src].keys[|sh[src].keys| - j], r1, A)
  }

  /** One turn of the loop of lines 253-396 for the name `k`: read the source value. */
  function KeyStep(sh: Heap, src: Node, stack: seq<Node>, path: seq<string>, dst: Node,
                   preferSource: bool, k: string, r: Run, A: seq<Node>): (r': Run)
    ensures r.used <= r'.used
    decreases sh.Keys - Elems(stack), 0, 1, 0
  {
    if src !in sh || k !in sh[src].props then r
    else Visit(sh, sh[src].props[k], stack, path, dst, preferSource, k, r, A)
  }

  /** The rest of the turn for the source value `sv`: place it, then follow it. */
  function Visit(sh: Heap, sv: Val, stack: seq<Node>, path: seq<string>, dst: Node,
                 preferSource: bool, k: string, r: Run, A: seq<Node>): (r': Run)
    ensures r.used <= r'.used
    decreases sh.Keys - Elems(stack), 0, 0, 1
  {
    if dst !in r.heap then r
    else
      var (r1, tv) := Place(sv, k, dst, preferSource, r, A);
      Follow(sh, sv, tv, stack, path, preferSource, k, r1, A)
  }

  /** Lines 343-376, once the target holds `tv` under `k`: unless both values
    are non-null objects nothing more happens; otherwise a source object already
    on the stack is reported, and any other one is merged into `tv`. */
  function Follow(sh: Heap, sv: Val, tv: Val, stack: seq<Node>, path: seq<string>,
                  preferSource: bool, k: string, r: Run, A: seq<Node>): (r': Run)
    ensures r.used <= r'.used
    decreases sh.Keys - Elems(stack), 0, 0, 0
  {
    if !sv.Obj? || !tv.Obj? then r
    else if sv.node in stack then
      r.(log := r.log + [Report(path + [k], AncestorPath(path, IndexOf(stack, sv.node)))])
    else if sv.node !in sh then r
    else
      assert Elems(stack + [sv.node]) == Elems(stack) + {sv.node};
      Merge(sh, sv.node, stack + [sv.node], path + [k], tv.node, preferSource,
            |sh[sv.node].keys|, r, A)
  }

  /** Lines 432-438: delete the names of a snapshot one by one, first to last. */
  function DeleteAll(st: NodeState, ks: seq<string>): (r: NodeState)
    ensures forall k :: k in r.keys <==> k in st.keys && k !in ks
    ensures forall k :: k in r.props <==> k in st.props && k !in ks
    ensures forall k :: k in r.props ==> r.props[k] == st.props[k]
    decreases |ks|
  {
    if ks == [] then st else DeleteAll(st, ks[..|ks| - 1]).Delete(ks[|ks| - 1])
  }

  /** The copyType test of line 420, as written: only a non-number whose numeric
    value is below 0 or above 2 is refused. */
  predicate RejectsCopyType(copyType: Val): (b: bool)
    ensures b ==> copyType.Str? && !Falsy(copyType)
  {
    !copyType.Num? && match ToNumber(copyType) { case Some(x) => x < 0 || x > 2 case None => false }
  }

  /** copyObject(source, target, copyType), lines 213-456. The code is 1
    exactly for a refused argument (lines 410-423), and then nothing was
    changed or reported; otherwise it is 0 when no circular reference was
    reported and 2 when one was (line 455). */
  function CopyObjectSpec(sh: Heap, th: Heap, source: Val, target: Val, copyType: Val, A: seq<Node>): (out: Outcome)
    requires source != Null && target != Null
    ensures out.code == 1 <==> !source.Obj? || !target.Obj? || RejectsCopyType(copyType)
    ensures out.code == 1 ==> out.heap == th && out.log == [] && out.made == 0
    ensures out.code != 1 ==> (out.code == 0 <==> out.log == []) && (out.code == 2 <==> out.log != [])
  {
    if !source.Obj? || !target.Obj? || RejectsCopyType(copyType) then Outcome(1, th, [], 0)
    else
      var s, t := source.node, target.node;
      var th' := if Falsy(copyType) && t in th then th[t := DeleteAll(th[t], th[t].keys)] else th;
      var r0 := Run(th', 0, []);
      var r := if s in sh then Merge(sh, s, [s], ["(root)"], t, copyType == Num(1), |sh[s].keys|, r0, A) else r0;
      Outcome(if r.log == [] then 0 else 2, r.heap, r.log, r.used)
  }
}
