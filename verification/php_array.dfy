/** PHP's ordered arrays, reduced to what the escape helper needs: an
    ordered sequence of key/value entries whose keys are distinct, and the
    element assignment `$a[$k] = $v`. */
module PhpArray {

  /** A PHP array key is an integer or a string. */
  datatype Key = IntKey(i: int) | StrKey(s: string)

  /** A value seen by the escape helper: a scalar (held as its string form),
      a nested array, or anything else (an object, a resource, null). */
  datatype Value = Scalar(s: string) | Arr(entries: seq<Entry>) | Other

  type Entry = (Key, Value)

  /** The keys of an array, in array order. */
  function Keys(es: seq<Entry>): (ks: seq<Key>)
    ensures |ks| == |es|
    ensures forall i :: 0 <= i < |es| ==> ks[i] == es[i].0
  {
    if es == [] then [] else [es[0].0] + Keys(es[1..])
  }

  /** Every PHP array has pairwise distinct keys. */
  predicate DistinctKeys(es: seq<Entry>)
  {
    forall i, j :: 0 <= i < j < |es| ==> es[i].0 != es[j].0
  }

  /** Distinct keys at every depth of a value. */
  predicate WellFormed(v: Value)
  {
    match v
    case Arr(es) =>
      DistinctKeys(es) && forall i :: 0 <= i < |es| ==> WellFormed(es[i].1)
    case _ => true
  }

  /** The position of the first entry with key `k`, or `|a|` when there is
      none. */
  function KeyIndex(a: seq<Entry>, k: Key): (i: nat)
    ensures i <= |a|
    ensures i < |a| ==> a[i].0 == k
    ensures forall j :: 0 <= j < i ==> a[j].0 != k
  {
    if a == [] then 0
    else if a[0].0 == k then 0
    else 1 + KeyIndex(a[1..], k)
  }

  /** `$a[$k] = $v`: an existing key keeps its position and gets the new
      value, a new key is appended at the end. */
  function Put(a: seq<Entry>, k: Key, v: Value): (r: seq<Entry>)
    ensures k !in Keys(a) ==> r == a + [(k, v)]
    ensures k in Keys(a) ==> |r| == |a| && Keys(r) == Keys(a)
    ensures DistinctKeys(a) && k in Keys(a) ==>
              forall i :: 0 <= i < |a| ==> r[i] == if a[i].0 == k then (k, v) else a[i]
    ensures DistinctKeys(a) ==> DistinctKeys(r)
    ensures (k, v) in r
    ensures forall e :: e in r ==> e == (k, v) || e in a
  {
    var i := KeyIndex(a, k);
    if i == |a| then a + [(k, v)] else a[i := (k, v)]
  }

  /** `a` is `b` with some entries left out, the rest kept in order. */
  predicate Subsequence<T(==)>(a: seq<T>, b: seq<T>)
    decreases |b|
  {
    if a == [] then true
    else if b == [] then false
    else (a[0] == b[0] && Subsequence(a[1..], b[1..])) || Subsequence(a, b[1..])
  }
}
