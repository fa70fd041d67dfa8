/** `ewdufaqHelper::escape_js_recursive` (Helper.class.php lines 78-101):
    prepares server data for a script context by decoding HTML entities in
    every scalar, at every depth, and dropping every leaf that is neither a
    scalar nor an array. */
module EscapeJs {
  import opened PhpArray

  /** `html_entity_decode(…, ENT_QUOTES, 'UTF-8')`, left uninterpreted. */
  type Decoder = string -> string

  /** PHP's `(array)` cast: an array is unchanged, a scalar becomes the
      one-entry array `[0 => v]`, null the empty array. PHP casts a resource
      to `[0 => resource]`, whose one entry the loop then drops, so the
      result coincides with the empty array's. */
  function CastToArray(v: Value): seq<Entry>
  {
    match v
    case Arr(es) => es
    case Scalar(_) => [(IntKey(0), v)]
    case Other => []
  }

  /** The result array after the foreach loop has visited the first `n`
      entries of `arr`. */
  function EscapeLoop(arr: Value, n: nat, decode: Decoder): seq<Entry>
    requires arr.Arr? && n <= |arr.entries|
    decreases arr, n
  {
    if n == 0 then []
    else
      var acc := EscapeLoop(arr, n - 1, decode);
      var key := arr.entries[n - 1].0;
      var item := arr.entries[n - 1].1;
      match item
      case Arr(nested) => Put(acc, key, Arr(EscapeLoop(item, |nested|, decode)))
      case Scalar(s) => Put(acc, key, Scalar(decode(s)))
      case Other => acc
  }

  /** `escape_js_recursive($values)`. */
  function EscapeJsRecursive(values: Value, decode: Decoder): seq<Entry>
  {
    var arr := Arr(CastToArray(values));
    EscapeLoop(arr, |arr.entries|, decode)
  }

  // ---------------------------------------------------------------------
  // Reference definition: keep the scalar and array entries, in order, and
  // escape each kept value.

  /** The entries whose value is a scalar or an array, in their order. */
  function Kept(es: seq<Entry>): (r: seq<Entry>)
    ensures |r| <= |es|
    ensures forall e :: e in r ==> e in es && !e.1.Other?
    ensures forall e :: e in es && !e.1.Other? ==> e in r
    ensures (forall e :: e in es ==> e.1.Other?) ==> r == []
  {
    if es == [] then []
    else if es[0].1.Other? then Kept(es[1..])
    else [es[0]] + Kept(es[1..])
  }

  /** What a kept value becomes: a decoded scalar or an escaped array. */
  function Escaped(v: Value, decode: Decoder): Value
  {
    match v
    case Scalar(s) => Scalar(decode(s))
    case Arr(_) => Arr(EscapeJsRecursive(v, decode))
    case Other => Other
  }

  /** Each entry under its own key, its value escaped. */
  function EscapeEach(es: seq<Entry>, decode: Decoder): seq<Entry>
  {
    seq(|es|, i requires 0 <= i < |es| => (es[i].0, Escaped(es[i].1, decode)))
  }

  lemma {:induction false} KeptAppend(a: seq<Entry>, b: seq<Entry>)
    ensures Kept(a + b) == Kept(a) + Kept(b)
    decreases |a|
  {
    if a == [] {
      assert a + b == b;
    } else {
      assert (a + b)[0] == a[0];
      assert (a + b)[1..] == a[1..] + b;
      KeptAppend(a[1..], b);
    }
  }

  lemma {:induction false} KeptIsSubsequence(es: seq<Entry>)
    ensures Subsequence(Kept(es), es)
    decreases |es|
  {
    if es != [] {
      KeptIsSubsequence(es[1..]);
      if !es[0].1.Other? {
        assert ([es[0]] + Kept(es[1..]))[1..] == Kept(es[1..]);
      } else {
        KeptSubsequenceCons(Kept(es[1..]), es[1..], es[0]);
      }
    }
  }

  lemma {:induction false} KeptSubsequenceCons(a: seq<Entry>, b: seq<Entry>, x: Entry)
    requires Subsequence(a, b)
    ensures Subsequence(a, [x] + b)
  {
    assert ([x] + b)[1..] == b;
  }

  lemma EscapeEachAppend(a: seq<Entry>, e: Entry, decode: Decoder)
    ensures EscapeEach(a + [e], decode) == EscapeEach(a, decode) + [(e.0, Escaped(e.1, decode))]
  {
  }

  /** The key of entry `n - 1` is not yet in the result after `n - 1`
      entries, because array keys are distinct. */
  lemma FreshKey(es: seq<Entry>, n: nat, decode: Decoder)
    requires 0 < n <= |es| && DistinctKeys(es)
    ensures es[n - 1].0 !in Keys(EscapeEach(Kept(es[..n - 1]), decode))
  {
  }

  /** One turn of the loop, in terms of the reference's `Escaped`. */
  lemma EscapeLoopStep(arr: Value, n: nat, decode: Decoder)
    requires arr.Arr? && 0 < n <= |arr.entries|
    ensures var e := arr.entries[n - 1];
            EscapeLoop(arr, n, decode)
            == if e.1.Other? then EscapeLoop(arr, n - 1, decode)
               else Put(EscapeLoop(arr, n - 1, decode), e.0, Escaped(e.1, decode))
  {
    var item := arr.entries[n - 1].1;
    if item.Arr? {
      assert Arr(CastToArray(item)) == item;
    }
  }

  /** Extending a prefix by one entry extends its kept entries by that
      entry, unless it is neither a scalar nor an array. */
  lemma KeptPrefixStep(es: seq<Entry>, n: nat)
    requires 0 < n <= |es|
    ensures Kept(es[..n]) == Kept(es[..n - 1]) + (if es[n - 1].1.Other? then [] else [es[n - 1]])
  {
    assert es[..n] == es[..n - 1] + [es[n - 1]];
    KeptAppend(es[..n - 1], [es[n - 1]]);
    assert [es[n - 1]][1..] == [];
  }

  /** After `n` turns the loop agrees with the reference on the first `n`
      entries. */
  predicate LoopAgrees(arr: Value, n: nat, decode: Decoder)
    requires arr.Arr? && n <= |arr.entries|
  {
    EscapeLoop(arr, n, decode) == EscapeEach(Kept(arr.entries[..n]), decode)
  }

  /** Before the first turn the result is empty, as is the reference. */
  lemma EscapeLoopStart(arr: Value, decode: Decoder)
    requires arr.Arr?
    ensures LoopAgrees(arr, 0, decode)
  {
    assert arr.entries[..0] == [];
    assert |EscapeEach(Kept([]), decode)| == 0;
  }

  /** One more turn keeps the agreement. */
  lemma EscapeLoopAppends(arr: Value, m: nat, decode: Decoder)
    requires arr.Arr? && m < |arr.entries| && DistinctKeys(arr.entries)
    requires LoopAgrees(arr, m, decode)
    ensures LoopAgrees(arr, m + 1, decode)
  {
    var es := arr.entries;
    var prior := Kept(es[..m]);
    KeptPrefixStep(es, m + 1);
    EscapeLoopStep(arr, m + 1, decode);
    if !es[m].1.Other? {
      FreshKey(es, m + 1, decode);
      EscapeEachAppend(prior, es[m], decode);
    } else {
      assert prior + [] == prior;
    }
  }

  lemma {:induction false} LoopAgreesUpTo(arr: Value, n: nat, decode: Decoder)
    requires arr.Arr? && n <= |arr.entries| && DistinctKeys(arr.entries)
    ensures LoopAgrees(arr, n, decode)
  {
    if n == 0 {
      EscapeLoopStart(arr, decode);
    } else {
      LoopAgreesUpTo(arr, n - 1, decode);
      EscapeLoopAppends(arr, n - 1, decode);
    }
  }

  /** The loop keeps every scalar and array entry, in order, escaped. */
  lemma EscapeLoopIsFilterMap(arr: Value, n: nat, decode: Decoder)
    requires arr.Arr? && n <= |arr.entries| && DistinctKeys(arr.entries)
    ensures EscapeLoop(arr, n, decode) == EscapeEach(Kept(arr.entries[..n]), decode)
  {
    LoopAgreesUpTo(arr, n, decode);
  }

  /** `escape_js_recursive` keeps the scalar and array entries of its
      (cast) input, in order and under their keys, and escapes each value. */
  lemma EscapeIsFilterMap(values: Value, decode: Decoder)
    requires values.Arr? ==> DistinctKeys(values.entries)
    ensures EscapeJsRecursive(values, decode) == EscapeEach(Kept(CastToArray(values)), decode)
  {
    var es := CastToArray(values);
    EscapeLoopIsFilterMap(Arr(es), |es|, decode);
    assert es[..|es|] == es;
  }

  // ---------------------------------------------------------------------
  // Consequences for callers.

  lemma {:induction false} KeysOfSubsequence(a: seq<Entry>, b: seq<Entry>)
    requires Subsequence(a, b)
    ensures Subsequence(Keys(a), Keys(b))
    decreases |b|
  {
    if a != [] {
      if a[0] == b[0] && Subsequence(a[1..], b[1..]) {
        KeysOfSubsequence(a[1..], b[1..]);
      } else {
        KeysOfSubsequence(a, b[1..]);
      }
    }
  }

  lemma {:induction false} KeptDistinct(es: seq<Entry>)
    requires DistinctKeys(es)
    ensures DistinctKeys(Kept(es))
    decreases |es|
  {
    if es != [] {
      KeptDistinct(es[1..]);
      if !es[0].1.Other? {
        var r := [es[0]] + Kept(es[1..]);
        forall i, j | 0 <= i < j < |r| ensures r[i].0 != r[j].0 {
          if i == 0 {
            assert r[j] in es[1..];
          }
        }
      }
    }
  }

  /** The output keys are the input keys with the dropped ones left out, in
      their original order. */
  lemma EscapeKeysAreSubsequence(values: Value, decode: Decoder)
    requires values.Arr? ==> DistinctKeys(values.entries)
    ensures Subsequence(Keys(EscapeJsRecursive(values, decode)), Keys(CastToArray(values)))
  {
    var es := CastToArray(values);
    EscapeIsFilterMap(values, decode);
    KeptIsSubsequence(es);
    KeysOfSubsequence(Kept(es), es);
    assert Keys(EscapeEach(Kept(es), decode)) == Keys(Kept(es));
  }

  /** Every scalar or array entry survives under its key, its value
      escaped. */
  lemma EscapeKeepsEntries(values: Value, decode: Decoder)
    requires values.Arr? ==> DistinctKeys(values.entries)
    ensures var es := CastToArray(values);
            forall i :: 0 <= i < |es| && !es[i].1.Other? ==>
              (es[i].0, Escaped(es[i].1, decode)) in EscapeJsRecursive(values, decode)
  {
    var es := CastToArray(values);
    var r := EscapeJsRecursive(values, decode);
    EscapeIsFilterMap(values, decode);
    var kept := Kept(es);
    forall i | 0 <= i < |es| && !es[i].1.Other?
      ensures (es[i].0, Escaped(es[i].1, decode)) in r
    {
      assert es[i] in kept;
      var j :| 0 <= j < |kept| && kept[j] == es[i];
      assert r[j] == (es[i].0, Escaped(es[i].1, decode));
    }
  }

  /** The key of every entry that is neither a scalar nor an array is absent
      from the output. */
  lemma EscapeDropsOthers(values: Value, decode: Decoder)
    requires values.Arr? ==> DistinctKeys(values.entries)
    ensures var es := CastToArray(values);
            forall i :: 0 <= i < |es| && es[i].1.Other? ==>
              es[i].0 !in Keys(EscapeJsRecursive(values, decode))
  {
    var es := CastToArray(values);
    var r := EscapeJsRecursive(values, decode);
    EscapeIsFilterMap(values, decode);
    var kept := Kept(es);
    forall i | 0 <= i < |es| && es[i].1.Other?
      ensures es[i].0 !in Keys(r)
    {
      forall j | 0 <= j < |r| ensures Keys(r)[j] != es[i].0 {
        assert kept[j] in es;
        var m :| 0 <= m < |es| && es[m] == kept[j];
        assert m != i;
      }
    }
  }

  /** Every output value is a scalar or an array. */
  lemma EscapeOutputShape(values: Value, decode: Decoder)
    requires values.Arr? ==> DistinctKeys(values.entries)
    ensures forall e :: e in EscapeJsRecursive(values, decode) ==> e.1.Scalar? || e.1.Arr?
  {
    var r := EscapeJsRecursive(values, decode);
    EscapeIsFilterMap(values, decode);
    var kept := Kept(CastToArray(values));
    forall e | e in r ensures e.1.Scalar? || e.1.Arr? {
      var j :| 0 <= j < |r| && r[j] == e;
      assert kept[j] in kept;
    }
  }

  /** A bare scalar is first wrapped as `[0 => v]` by the `(array)` cast. */
  lemma EscapeWrapsScalar(s: string, decode: Decoder)
    ensures EscapeJsRecursive(Scalar(s), decode) == [(IntKey(0), Scalar(decode(s)))]
  {
    var arr := Arr([(IntKey(0), Scalar(s))]);
    assert EscapeLoop(arr, 0, decode) == [];
    assert EscapeLoop(arr, 1, decode) == Put([], IntKey(0), Scalar(decode(s)));
  }

  /** A nested array whose every value is dropped is kept, as an empty
      array, under its key. */
  lemma EscapeKeepsEmptiedArray(values: Value, decode: Decoder, i: nat)
    requires WellFormed(values) && values.Arr? && i < |values.entries|
    requires values.entries[i].1.Arr?
    requires forall e :: e in values.entries[i].1.entries ==> e.1.Other?
    ensures (values.entries[i].0, Arr([])) in EscapeJsRecursive(values, decode)
  {
    var nested := values.entries[i].1;
    EscapeIsFilterMap(nested, decode);
    assert EscapeJsRecursive(nested, decode) == [];
    assert Escaped(nested, decode) == Arr([]);
    EscapeKeepsEntries(values, decode);
    assert CastToArray(values)[i] == values.entries[i];
  }

  /** Escaping keeps keys distinct at every depth. */
  lemma {:induction false} EscapePreservesWellFormed(values: Value, decode: Decoder)
    requires WellFormed(values)
    ensures WellFormed(Arr(EscapeJsRecursive(values, decode)))
    decreases values
  {
    var es := CastToArray(values);
    var r := EscapeJsRecursive(values, decode);
    EscapeIsFilterMap(values, decode);
    KeptDistinct(es);
    var kept := Kept(es);
    forall i | 0 <= i < |r| ensures WellFormed(r[i].1) {
      assert kept[i] in kept;
      if kept[i].1.Arr? {
        assert kept[i] in values.entries;
        EscapePreservesWellFormed(kept[i].1, decode);
      }
    }
  }
}
