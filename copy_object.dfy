/** library/copyObject.js as imperative code: objects are `Node`s changed in
  place, the closure state of copyObject (keyStack, objStack and the console
  that receives the circular-reference warnings) is a `Copier`, and every
  method is proved to compute what `MergeSpec` says. */
module CopyObject {
  import opened JsObjects
  import opened MergeSpec
  import MergeFrame

  /** The variables copyObject shares with its inner copyObjectRecursion. */
  class Copier {
    const copyType: Val
    /** The source objects reachable from the root (`S`) and their property tables (`sh`). */
    ghost const S: set<Node>
    ghost const sh: Heap
    var keyStack: seq<string>
    var objStack: seq<Node>
    /** The warnings written to the console by line 374, in order. */
    var log: seq<Report>

    ghost predicate Valid()
      reads this
    {
      |keyStack| == |objStack| >= 1 && Elems(objStack) <= S
    }

    /** Lines 217-218. */
    constructor (source: Node, copyType: Val, ghost S: set<Node>, ghost sh: Heap)
      requires source in S
      ensures Valid()
      ensures this.copyType == copyType && this.S == S && this.sh == sh
      ensures keyStack == ["(root)"] && objStack == [source] && log == []
    {
      this.copyType := copyType;
      this.S := S;
      this.sh := sh;
      keyStack := ["(root)"];
      objStack := [source];
      log := [];
    }

    /** copyObjectRecursion(src, dst), lines 238-399. `T` is the target
      objects that may be changed, `r` their value together with the number of
      objects allocated so far (`created`) and the warnings; `r'` is the same
      after the call. The result is true exactly when no circular reference
      was reported. */
    method CopyRec(src: Node, dst: Node, ghost T: set<Node>, ghost r: Run, ghost created: seq<Node>)
      returns (ok: bool, ghost T': set<Node>, ghost r': Run, ghost created': seq<Node>)
      requires Valid() && src in S && dst in T && S !! T
      requires Models(S, sh) && Closed(sh) && KeysHeld(sh)
      requires Models(T, r.heap) && Closed(r.heap) && r.used == |created| && r.log == log && Elems(created) <= T
      modifies this`keyStack, this`objStack, this`log, T
      decreases S - Elems(objStack), 3
      ensures keyStack == old(keyStack) && objStack == old(objStack)
      ensures T <= T' && fresh(T' - T) && S !! T'
      ensures created <= created' && Elems(created') <= T' && Unallocated(created', |created|, r.heap)
      ensures Models(T', r'.heap) && Closed(r'.heap) && r'.used == |created'| && r'.log == log
      ensures old(log) <= log && (ok <==> log == old(log))
      ensures r' == Merge(sh, src, old(objStack), old(keyStack), dst, copyType == Num(1), |sh[src].keys|, r, created')
    {
      ok := true;
      T', r', created' := T, r, created;
      assert src.State() == sh[src];
      var sourceKeys := src.keys;
      var keyIndex := |sourceKeys|;
      ghost var stack, path, preferSource := objStack, keyStack, copyType == Num(1);
      while keyIndex > 0
        invariant 0 <= keyIndex <= |sourceKeys| && sourceKeys == sh[src].keys
        invariant keyStack == path && objStack == stack
        invariant dst in T' && T <= T' && fresh(T' - T) && S !! T'
        invariant created <= created' && Elems(created') <= T' && Unallocated(created', |created|, r.heap)
        invariant Models(T', r'.heap) && Closed(r'.heap) && r'.used == |created'| && r'.log == log && Models(S, sh)
        invariant old(log) <= log && (ok <==> log == old(log))
        invariant r' == Merge(sh, src, stack, path, dst, preferSource, |sourceKeys| - keyIndex, r, created')
      {
        ghost var cb, rb := created', r';
        ghost var j := |sourceKeys| - keyIndex;
        keyIndex := keyIndex - 1;
        var propertyKey := sourceKeys[keyIndex];
        var keyOk;
        keyOk, T', r', created' := CopyKey(src, dst, propertyKey, T', r', created');
        ok := keyOk && ok;
        MergeFrame.MergeNext(sh, src, stack, path, dst, preferSource, j, r, cb, created', rb);
        MergeFrame.UnallocatedJoin(created, cb, created', r.heap, rb.heap);
      }
    }

    /** One turn of the loop of lines 253-396: read the source value, place it
      in the target, then follow it. */
    method CopyKey(src: Node, dst: Node, propertyKey: string, ghost T: set<Node>, ghost r: Run, ghost created: seq<Node>)
      returns (ok: bool, ghost T': set<Node>, ghost r': Run, ghost created': seq<Node>)
      requires Valid() && src in S && dst in T && S !! T
      requires Models(S, sh) && Closed(sh) && KeysHeld(sh) && propertyKey in sh[src].keys
      requires Models(T, r.heap) && Closed(r.heap) && r.used == |created| && r.log == log && Elems(created) <= T
      modifies this`keyStack, this`objStack, this`log, T
      decreases S - Elems(objStack), 2
      ensures keyStack == old(keyStack) && objStack == old(objStack)
      ensures T <= T' && fresh(T' - T) && S !! T'
      ensures created <= created' && Elems(created') <= T' && Unallocated(created', |created|, r.heap)
      ensures Models(T', r'.heap) && Closed(r'.heap) && r'.used == |created'| && r'.log == log
      ensures old(log) <= log && (ok <==> log == old(log))
      ensures r' == KeyStep(sh, src, old(objStack), old(keyStack), dst, copyType == Num(1), propertyKey, r, created')
    {
      assert src.State() == sh[src] && dst.State() == r.heap[dst];
      var sv := src.props[propertyKey];
      ghost var r1, tv;
      T', r1, created', tv := PlaceKey(sv, propertyKey, dst, T, r, created);
      ghost var cm := created';
      ok, T', r', created' := FollowKey(sv, dst, propertyKey, tv, T', r1, created');
      MergeFrame.VisitSplits(sh, sv, old(objStack), old(keyStack), dst, copyType == Num(1), propertyKey, r, cm, created', r1, tv);
      MergeFrame.UnallocatedJoin(created, cm, created', r.heap, r1.heap);
    }

    /** Lines 343-376 for the value `sv` read from the source, once the target
      holds `tv` under the name: recurse into a pair of non-null objects, or
      report the circular reference when the source object is an ancestor. */
    method FollowKey(sv: Val, dst: Node, propertyKey: string, ghost tv: Val,
                     ghost T: set<Node>, ghost r: Run, ghost created: seq<Node>)
      returns (ok: bool, ghost T': set<Node>, ghost r': Run, ghost created': seq<Node>)
      requires Valid() && (sv.Obj? ==> sv.node in S) && dst in T && S !! T
      requires Models(S, sh) && Closed(sh) && KeysHeld(sh)
      requires Models(T, r.heap) && Closed(r.heap) && r.used == |created| && r.log == log && Elems(created) <= T
      requires tv == if sv.Obj? && propertyKey in dst.props then dst.props[propertyKey] else Undefined
      modifies this`keyStack, this`objStack, this`log, T
      decreases S - Elems(objStack), 1
      ensures keyStack == old(keyStack) && objStack == old(objStack)
      ensures T <= T' && fresh(T' - T) && S !! T'
      ensures created <= created' && Elems(created') <= T' && Unallocated(created', |created|, r.heap)
      ensures Models(T', r'.heap) && Closed(r'.heap) && r'.used == |created'| && r'.log == log
      ensures old(log) <= log && (ok <==> log == old(log))
      ensures r' == Follow(sh, sv, tv, old(objStack), old(keyStack), copyType == Num(1), propertyKey, r, created')
    {
      ok := true;
      T', r', created' := T, r, created;
      if sv.Obj? && propertyKey in dst.props && dst.props[propertyKey].Obj? {
        var ancestorCheck := IndexOf(objStack, sv.node);
        if ancestorCheck == -1 {
          assert dst.State() == r.heap[dst];
          ok, T', r', created' := Descend(sv.node, dst.props[propertyKey].node, propertyKey, T, r, created);
        } else {
          log := log + [Report(keyStack + [propertyKey], keyStack[..ancestorCheck + 1])];
          ok := false;
          r' := r.(log := log);
        }
      }
    }

    /** Lines 351-361: push the name and the source object, recurse into the
      pair of objects, pop both again. */
    method Descend(src: Node, dst: Node, propertyKey: string, ghost T: set<Node>, ghost r: Run, ghost created: seq<Node>)
      returns (ok: bool, ghost T': set<Node>, ghost r': Run, ghost created': seq<Node>)
      requires Valid() && src in S && src !in objStack && dst in T && S !! T
      requires Models(S, sh) && Closed(sh) && KeysHeld(sh)
      requires Models(T, r.heap) && Closed(r.heap) && r.used == |created| && r.log == log && Elems(created) <= T
      modifies this`keyStack, this`objStack, this`log, T
      decreases S - Elems(objStack), 0
      ensures keyStack == old(keyStack) && objStack == old(objStack)
      ensures T <= T' && fresh(T' - T) && S !! T'
      ensures created <= created' && Elems(created') <= T' && Unallocated(created', |created|, r.heap)
      ensures Models(T', r'.heap) && Closed(r'.heap) && r'.used == |created'| && r'.log == log
      ensures old(log) <= log && (ok <==> log == old(log))
      ensures r' == Merge(sh, src, old(objStack) + [src], old(keyStack) + [propertyKey], dst, copyType == Num(1),
                          |sh[src].keys|, r, created')
    {
      keyStack := keyStack + [propertyKey];
      objStack := objStack + [src];
      assert Elems(objStack) == Elems(old(objStack)) + {src};
      ok, T', r', created' := CopyRec(src, dst, T, r, created);
      keyStack := keyStack[..|keyStack| - 1];
      objStack := objStack[..|objStack| - 1];
    }

    /** Lines 294-304: with copyType === 1, a target property that differs from
      the source value, unless both are objects, is deleted; nothing else of
      the target changes. */
    method DeleteConflict(sv: Val, propertyKey: string, dst: Node)
      modifies dst
      ensures dst.State() == if copyType == Num(1) && Conflicts(sv, old(dst.State()), propertyKey)
                             then old(dst.State()).Delete(propertyKey) else old(dst.State())
    {
      if copyType == Num(1) && propertyKey in dst.props && sv != dst.props[propertyKey]
         && !(sv.Obj? && dst.props[propertyKey].Obj?) {
        dst.Delete(propertyKey);
      }
    }

    /** Lines 294-315 and 379-395 for one name: delete a conflicting target
      property when copyType === 1, then write a scalar, or create `{}` for an
      object, where the target lacks the name. `tv` is what the target then
      holds under the name when the source value is an object. */
    method PlaceKey(sv: Val, propertyKey: string, dst: Node, ghost T: set<Node>, ghost r: Run, ghost created: seq<Node>)
      returns (ghost T': set<Node>, ghost r': Run, ghost created': seq<Node>, ghost tv: Val)
      requires dst in T && Models(T, r.heap) && Closed(r.heap) && r.used == |created| && Elems(created) <= T
      modifies dst
      ensures T <= T' && fresh(T' - T) && created <= created' && Elems(created') <= T'
      ensures Unallocated(created', |created|, r.heap)
      ensures Models(T', r'.heap) && Closed(r'.heap) && r'.used == |created'| && r'.log == r.log
      ensures tv == if sv.Obj? && propertyKey in dst.props then dst.props[propertyKey] else Undefined
      ensures Place(sv, propertyKey, dst, copyType == Num(1), r, created') == (r', tv)
    {
      T', created' := T, created;
      ghost var h := r.heap;
      ghost var preferSource := copyType == Num(1);
      ghost var d := if preferSource && Conflicts(sv, h[dst], propertyKey) then h[dst].Delete(propertyKey) else h[dst];
      DeleteConflict(sv, propertyKey, dst);
      if sv.Obj? {
        if propertyKey in dst.props {
          r' := r.(heap := h[dst := d]);
        } else {
          var child := new Node();
          dst.Put(propertyKey, Obj(child));
          T' := T' + {child};
          created' := created' + [child];
          r' := Run(h[child := Empty][dst := d.Put(propertyKey, Obj(child))], r.used + 1, r.log);
        }
      } else {
        if propertyKey !in dst.props {
          dst.Put(propertyKey, sv);
        }
        r' := r.(heap := h[dst := if propertyKey in d.props then d else d.Put(propertyKey, sv)]);
      }
      tv := if sv.Obj? && propertyKey in dst.props then dst.props[propertyKey] else Undefined;
    }
  }

  /** Lines 432-438: every own property of `o` is deleted, one name at a time,
    so that `o` itself (and every reference to it) is kept. */
  method DeleteOwnProperties(o: Node)
    modifies o
    ensures o.State() == DeleteAll(old(o.State()), old(o.keys))
  {
    var names := o.keys;
    var i := 0;
    while i < |names|
      invariant 0 <= i <= |names|
      invariant o.State() == DeleteAll(old(o.State()), names[..i])
    {
      assert names[..i + 1][..i] == names[..i];
      o.Delete(names[i]);
      i := i + 1;
    }
    assert names[..|names|] == names;
  }

  /** copyObject(sourceObject, targetObject, copyType), lines 213-456: the
    returned code, the warnings written to the console and the final target
    objects are those of `CopyObjectSpec`, with `created` the `{}` objects the
    call allocated, in order. `S` and `T` are the objects reachable from the
    source and from the target. */
  method CopyObject(source: Val, target: Val, copyType: Val,
                    ghost S: set<Node>, ghost sh: Heap, ghost T: set<Node>, ghost th: Heap)
    returns (code: int, log: seq<Report>, ghost T': set<Node>, ghost created: seq<Node>, ghost th': Heap)
    requires source != Null && target != Null
    requires source.Obj? ==> source.node in S
    requires target.Obj? ==> target.node in T
    requires S !! T
    requires Models(S, sh) && Closed(sh) && KeysHeld(sh)
    requires Models(T, th) && Closed(th)
    modifies T
    ensures T <= T' && fresh(T' - T) && Elems(created) <= T' && Unallocated(created, 0, th)
    ensures Models(T', th')
    ensures CopyObjectSpec(sh, th, source, target, copyType, created) == Outcome(code, th', log, |created|)
  {
    T', created, th' := T, [], th;
    if !source.Obj? || !target.Obj? || RejectsCopyType(copyType) {
      return 1, [], T', created, th';
    }
    var s, t := source.node, target.node;
    if Falsy(copyType) {
      DeleteOwnProperties(t);
      th' := th[t := DeleteAll(th[t], th[t].keys)];
      assert t.State() == th'[t];
    }
    var copier := new Copier(s, copyType, S, sh);
    var ok;
    ghost var r';
    ok, T', r', created := copier.CopyRec(s, t, T, Run(th', 0, []), []);
    code := if ok then 0 else 2;
    log := copier.log;
    th' := r'.heap;
  }
}
