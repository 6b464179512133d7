/** The JavaScript values the panels inspect, with the few language rules the
    source depends on: truthiness, `typeof`, own-property lookup and `delete`. */
module Js {
  import Strings

  /** A JSON-like JavaScript value. Numbers are integers here; an object is its
      list of own properties in insertion order (keys are distinct in a
      well-formed object, see `WellFormed`). */
  datatype Value =
    | Undefined
    | Null
    | Bool(b: bool)
    | Num(n: int)
    | Str(s: string)
    | Arr(elems: seq<Value>)
    | Obj(props: Props)

  type Props = seq<(string, Value)>

  /** JavaScript truthiness: `undefined`, `null`, `false`, `0` and `""` are falsy. */
  predicate Truthy(v: Value) {
    match v
    case Undefined => false
    case Null => false
    case Bool(b) => b
    case Num(n) => n != 0
    case Str(s) => s != ""
    case Arr(_) => true
    case Obj(_) => true
  }

  /** `typeof v === "object"`: arrays, objects and `null`. */
  predicate IsObjectType(v: Value) {
    v.Null? || v.Arr? || v.Obj?
  }

  /** `Object.keys(o)` before any sorting: the own keys in insertion order. */
  function Keys(p: Props): (ks: seq<string>)
    ensures |ks| == |p|
    ensures forall i :: 0 <= i < |p| ==> ks[i] == p[i].0
  {
    if p == [] then [] else [p[0].0] + Keys(p[1..])
  }

  predicate HasKey(p: Props, k: string) {
    exists i :: 0 <= i < |p| && p[i].0 == k
  }

  /** No key occurs twice. */
  ghost predicate WellFormed(p: Props) {
    forall i, j :: 0 <= i < j < |p| ==> p[i].0 != p[j].0
  }

  /** `o[k]` for an own property: the value stored under `k`, `undefined` when absent. */
  function Get(p: Props, k: string): (v: Value)
    ensures !HasKey(p, k) ==> v == Undefined
  {
    if p == [] then Undefined
    else if p[0].0 == k then p[0].1
    else Get(p[1..], k)
  }

  /** `delete o[k]`: the remaining properties keep their order. */
  function Without(p: Props, k: string): (r: Props)
    ensures !HasKey(r, k)
    ensures Keys(r) == Strings.Omit(Keys(p), k)
    ensures |r| <= |p|
    ensures forall i :: 0 <= i < |r| ==> r[i] in p
    ensures !HasKey(p, k) ==> r == p
  {
    if p == [] then []
    else if p[0].0 == k then Without(p[1..], k)
    else
      var rest := Without(p[1..], k);
      assert forall i :: 1 <= i < |p| ==> p[i] == p[1..][i - 1];
      assert forall i :: 0 < i < |[p[0]] + rest| ==> ([p[0]] + rest)[i] == rest[i - 1];
      assert ([p[0]] + rest)[1..] == rest;
      [p[0]] + rest
  }

  /** Deleting `k` leaves every other key's value as it was. */
  lemma {:induction false} GetWithout(p: Props, k: string, j: string)
    ensures Get(Without(p, k), j) == if j == k then Undefined else Get(p, j)
  {
    if p != [] {
      GetWithout(p[1..], k, j);
    }
  }

  /** Deleting keeps the object well-formed. */
  lemma {:induction false} WellFormedWithout(p: Props, k: string)
    requires WellFormed(p)
    ensures WellFormed(Without(p, k))
  {
    if p != [] {
      assert WellFormed(p[1..]) by {
        forall i, j | 0 <= i < j < |p[1..]| ensures p[1..][i].0 != p[1..][j].0 {
          assert p[1..][i] == p[i + 1] && p[1..][j] == p[j + 1];
        }
      }
      WellFormedWithout(p[1..], k);
      if p[0].0 != k {
        var rest := Without(p[1..], k);
        assert !HasKey(p[1..], p[0].0);
        forall i | 0 <= i < |rest| ensures rest[i].0 != p[0].0 {
          assert rest[i] in p[1..];
        }
      }
    }
  }

  /** A JavaScript object that the source changes in place with `delete`. */
  class JsObject {
    var props: Props

    constructor (p: Props)
      ensures props == p
    {
      props := p;
    }

    method DeleteKey(k: string)
      modifies this
      ensures props == Without(old(props), k)
    {
      props := Without(props, k);
    }
  }
}
