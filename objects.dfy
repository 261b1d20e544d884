/** JavaScript values and plain objects, as far as copyObject uses them.
  An object is a Node: its own property names in creation order (`keys`) and
  its own properties (`props`). Prototypes, non-enumerable properties, arrays
  and getters are not modelled. */
module JsObjects {

  datatype Option<T> = None | Some(value: T)

  /** A JavaScript value. `Obj` is a non-null object, compared by reference;
    every other constructor is a scalar (`typeof` is not 'object', or it is null). */
  datatype Val = Undefined | Null | Bool(b: bool) | Num(n: int) | Str(s: string) | Obj(node: Node)

  /** The own-property table of one object, as a value. */
  datatype NodeState = NodeState(keys: seq<string>, props: map<string, Val>)
  {
    /** `delete o[k]`: the property disappears and the other names keep their
      order. */
    function Delete(k: string): (st: NodeState)
      ensures st.props == props - {k}
      ensures forall x :: x in st.keys <==> x in keys && x != k
    {
      NodeState(Without(keys, k), props - {k})
    }

    /** A well-formed table stays well-formed after a deletion. */
    lemma DeleteKeepsWellFormed(k: string)
      requires WellFormed()
      ensures Delete(k).WellFormed() && k !in Delete(k).keys
    {
    }

    /** `o[k] = v`: afterwards `k` holds `v` and every other property is as
      before; the names already listed keep their places and at most one is
      added. */
    function Put(k: string, v: Val): (st: NodeState)
      ensures st.props == props[k := v]
      ensures keys <= st.keys && |st.keys| <= |keys| + 1
    {
      NodeState(if k in props then keys else keys + [k], props[k := v])
    }

    /** A well-formed table stays well-formed after a write, and lists the
      name written. */
    lemma PutKeepsWellFormed(k: string, v: Val)
      requires WellFormed()
      ensures Put(k, v).WellFormed() && k in Put(k, v).keys
    {
      var ks := Put(k, v).keys;
      if k !in props {
        forall i, j | 0 <= i < j < |ks| ensures ks[i] != ks[j] {
          assert ks[i] == keys[i];
          if j == |keys| { assert keys[i] in keys; } else { assert ks[j] == keys[j]; }
        }
      }
    }

    /** What Object.getOwnPropertyNames reports is exactly the own properties, each once. */
    ghost predicate WellFormed() {
      && Distinct(keys)
      && (forall k :: k in props <==> k in keys)
    }
  }

  /** No name occurs twice. */
  ghost predicate Distinct(ks: seq<string>) {
    forall i, j :: 0 <= i < j < |ks| ==> ks[i] != ks[j]
  }

  /** The state of a freshly created `{}`. */
  const Empty := NodeState([], map[])

  /** The names with `k` taken out, in order; distinct names stay distinct. */
  function Without(ks: seq<string>, k: string): (r: seq<string>)
    ensures forall x :: x in r <==> x in ks && x != k
    ensures |r| <= |ks|
    ensures Distinct(ks) ==> Distinct(r)
  {
    if ks == [] then []
    else
      var rest := Without(ks[1..], k);
      assert Distinct(ks) ==> Distinct(ks[1..]) && ks[0] !in ks[1..] by {
        if Distinct(ks) {
          forall j | 0 <= j < |ks[1..]| ensures ks[1..][j] != ks[0] {
            assert ks[1..][j] == ks[j + 1];
          }
        }
      }
      (if ks[0] == k then [] else [ks[0]]) + rest
  }

  class Node {
    var keys: seq<string>
    var props: map<string, Val>

    /** The object literal `{}`. */
    constructor ()
      ensures keys == [] && props == map[]
    {
      keys := [];
      props := map[];
    }

    function State(): NodeState
      reads this
    {
      NodeState(keys, props)
    }

    method Delete(k: string)
      modifies this
      ensures State() == old(State()).Delete(k)
    {
      keys := Without(keys, k);
      props := props - {k};
    }

    method Put(k: string, v: Val)
      modifies this
      ensures State() == old(State()).Put(k, v)
    {
      if k !in props {
        keys := keys + [k];
      }
      props := props[k := v];
    }
  }

  /** A set of objects seen as one value: each object's property table. */
  type Heap = map<Node, NodeState>

  /** `h` is the value of the objects `ns` in the current state. */
  ghost predicate Models(ns: set<Node>, h: Heap)
    reads ns
  {
    h.Keys == ns && forall n {:trigger n.State()} :: n in ns ==> h[n] == n.State()
  }

  /** Every object reachable in one step from an object of `h` is in `h`. */
  ghost predicate Closed(h: Heap) {
    forall n, k :: n in h && k in h[n].props && h[n].props[k].Obj? ==> h[n].props[k].node in h
  }

  ghost predicate AllWellFormed(h: Heap) {
    forall n :: n in h ==> h[n].WellFormed()
  }

  /** Every name an object lists is one of its properties (part of WellFormed). */
  ghost predicate KeysHeld(h: Heap) {
    forall n, k :: n in h && k in h[n].keys ==> k in h[n].props
  }

  /** JavaScript's ToBoolean is false: undefined, null, false, 0 and "". */
  predicate Falsy(v: Val): (b: bool)
    ensures b ==> !v.Obj? && (v == Undefined || ToNumber(v) == Some(0))
  {
    v == Undefined || v == Null || v == Bool(false) || v == Num(0) || v == Str("")
  }

  predicate IsDigit(c: char) { '0' <= c <= '9' }

  function DigitsValue(s: string): (n: nat)
    requires forall i :: 0 <= i < |s| ==> IsDigit(s[i])
  {
    if s == [] then 0
    else
      var last := s[|s| - 1];
      assert IsDigit(last);
      DigitsValue(s[..|s| - 1]) * 10 + (last as int - '0' as int)
  }

  /** ToNumber on a string, for the forms `""`, `digits`, `+digits` and `-digits`;
    any other string is taken as NaN (None). */
  function StringToNumber(s: string): Option<int> {
    if s == "" then Some(0)
    else if forall i :: 0 <= i < |s| ==> IsDigit(s[i]) then Some(DigitsValue(s))
    else if |s| > 1 && (s[0] == '+' || s[0] == '-') && forall i :: 1 <= i < |s| ==> IsDigit(s[i]) then
      Some(if s[0] == '-' then -(DigitsValue(s[1..]) as int) else DigitsValue(s[1..]))
    else None
  }

  /** ToNumber as used by `<` and `>` against a number; None is NaN. An object
    converts through its default string "[object Object]", which is NaN. */
  function ToNumber(v: Val): Option<int> {
    match v
    case Undefined => None
    case Null => Some(0)
    case Bool(b) => Some(if b then 1 else 0)
    case Num(n) => Some(n)
    case Str(s) => StringToNumber(s)
    case Obj(_) => None
  }
}
