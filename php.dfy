/**
 * The slice of PHP's value model the data-access functions depend on:
 * scalar values with PHP's truthiness, and arrays with string keys, which
 * PHP keeps as ordered maps (assigning to an existing key overwrites it in
 * place, assigning to a new key appends it).
 */
module Php {
  import opened Wrappers

  /** A PHP scalar as the functions receive it; floats and arrays are not modelled. */
  datatype PhpValue = Null | Bool(b: bool) | Int(n: int) | Str(s: string)

  /** PHP's conversion to boolean, as `if ($x)` applies it. */
  predicate Truthy(v: PhpValue)
  {
    match v
    case Null => false
    case Bool(b) => b
    case Int(n) => n != 0
    case Str(s) => s != "" && s != "0"
  }

  /** The falsy scalars are exactly null, false, 0, "" and "0". */
  lemma FalsyValues(v: PhpValue)
    ensures !Truthy(v) <==> v == Null || v == Bool(false) || v == Int(0) || v == Str("") || v == Str("0")
  {
  }

  /** A PHP array with string keys, in insertion order. */
  type PhpArray = seq<(string, PhpValue)>

  /** The keys of an array, in order. */
  function Keys(a: PhpArray): (ks: seq<string>)
    ensures |ks| == |a|
    ensures forall i :: 0 <= i < |a| ==> ks[i] == a[i].0
  {
    seq(|a|, i requires 0 <= i < |a| => a[i].0)
  }

  /** No key occurs twice, as in every PHP array. */
  predicate DistinctKeys(a: PhpArray)
  {
    forall i, j :: 0 <= i < j < |a| ==> a[i].0 != a[j].0
  }

  /** `$a[$key]` when the key is present. */
  function Lookup(a: PhpArray, key: string): Option<PhpValue>
  {
    if a == [] then None
    else if a[0].0 == key then Some(a[0].1)
    else Lookup(a[1..], key)
  }

  /**
   * `$a[$key] = $value`: overwrite in place when the key is present, append
   * otherwise. The key then maps to the value and every other key keeps
   * its value.
   */
  function Assign(a: PhpArray, key: string, value: PhpValue): (r: PhpArray)
    ensures Lookup(r, key) == Some(value)
    ensures forall k :: k != key ==> Lookup(r, k) == Lookup(a, k)
    ensures key !in Keys(a) ==> r == a + [(key, value)]
  {
    if a == [] then [(key, value)]
    else if a[0].0 == key then [(key, value)] + a[1..]
    else [a[0]] + Assign(a[1..], key, value)
  }

  /** Assigning keeps the keys of an array in order, adding a new one at the end. */
  lemma {:induction false} AssignKeys(a: PhpArray, key: string, value: PhpValue)
    ensures Keys(Assign(a, key, value)) == if key in Keys(a) then Keys(a) else Keys(a) + [key]
    decreases |a|
  {
    if a != [] {
      assert Keys(a) == [a[0].0] + Keys(a[1..]);
      if a[0].0 == key {
        assert Keys(Assign(a, key, value)) == [key] + Keys(a[1..]);
      } else {
        AssignKeys(a[1..], key, value);
        assert Keys(Assign(a, key, value)) == [a[0].0] + Keys(Assign(a[1..], key, value));
      }
    }
  }

  /** Assigning never duplicates a key. */
  lemma AssignKeepsKeysDistinct(a: PhpArray, key: string, value: PhpValue)
    requires DistinctKeys(a)
    ensures DistinctKeys(Assign(a, key, value))
  {
    var r := Assign(a, key, value);
    AssignKeys(a, key, value);
    forall i, j | 0 <= i < j < |r|
      ensures r[i].0 != r[j].0
    {
      assert r[i].0 == Keys(r)[i] && r[j].0 == Keys(r)[j];
      if j == |a| {
        assert Keys(a)[i] in Keys(a);
      }
    }
  }
}
