/**
 * A plain JavaScript object used as a dictionary from strings to strings
 * (`parsedJSON`, `comparisonMap`): its own properties in insertion order,
 * which is the order `Object.keys` and `Object.entries` list them in.
 * An entry is also the shape of one `{key, value}` secret.
 */
module JsObjects {
  import opened Common

  datatype Entry = Entry(key: string, value: string)

  type Dict = seq<Entry>

  ghost predicate DistinctKeys(d: seq<Entry>)
  {
    forall i, j :: 0 <= i < j < |d| ==> d[i].key != d[j].key
  }

  /** Where key `k` sits, if it is present. */
  function KeyIndex(d: Dict, k: string): (r: Option<nat>)
    ensures r.Some? ==> r.value < |d| && d[r.value].key == k
    ensures r.Some? ==> forall j :: 0 <= j < r.value ==> d[j].key != k
    ensures r.None? ==> forall j :: 0 <= j < |d| ==> d[j].key != k
    decreases |d|
  {
    if |d| == 0 then None
    else if d[0].key == k then Some(0)
    else
      match KeyIndex(d[1..], k)
      case None => None
      case Some(i) => Some(i + 1)
  }

  /** `obj[k]`: the value, or `undefined`. */
  function Get(d: Dict, k: string): Option<string>
  {
    match KeyIndex(d, k)
    case None => None
    case Some(i) => Some(d[i].value)
  }

  lemma KeyIndexSameKeys(d: Dict, e: Dict, k: string)
    requires |d| == |e| && forall i :: 0 <= i < |d| ==> d[i].key == e[i].key
    ensures KeyIndex(d, k) == KeyIndex(e, k)
  {
    var a, b := KeyIndex(d, k), KeyIndex(e, k);
    if a.Some? && b.Some? {
      assert !(a.value < b.value) && !(b.value < a.value);
    }
  }

  lemma KeyIndexAppend(d: Dict, x: Entry, k: string)
    requires x.key != k
    ensures KeyIndex(d + [x], k) == KeyIndex(d, k)
  {
    var a, b := KeyIndex(d + [x], k), KeyIndex(d, k);
    assert forall j :: 0 <= j < |d| ==> (d + [x])[j] == d[j];
    assert (d + [x])[|d|] == x;
    if a.Some? && b.Some? {
      assert !(a.value < b.value) && !(b.value < a.value);
    }
  }

  /** `obj[k] = v`: an existing key keeps its place and takes the new value, a new key goes last. */
  function Put(d: Dict, k: string, v: string): (r: Dict)
    ensures Get(r, k) == Some(v)
    ensures forall k' :: k' != k ==> Get(r, k') == Get(d, k')
    ensures KeyIndex(d, k).Some? ==> |r| == |d| && r == d[KeyIndex(d, k).value := Entry(k, v)]
    ensures KeyIndex(d, k).None? ==> r == d + [Entry(k, v)]
    ensures DistinctKeys(d) ==> DistinctKeys(r)
  {
    match KeyIndex(d, k)
    case Some(i) =>
      var r := d[i := Entry(k, v)];
      assert forall k' :: KeyIndex(r, k') == KeyIndex(d, k') by {
        forall k' { KeyIndexSameKeys(r, d, k'); }
      }
      r
    case None =>
      var r := d + [Entry(k, v)];
      assert forall k' :: k' != k ==> KeyIndex(r, k') == KeyIndex(d, k') by {
        forall k' | k' != k { KeyIndexAppend(d, Entry(k, v), k'); }
      }
      assert r[|d|] == Entry(k, v);
      r
  }

  /** Writing `obj[e.key] = e.value` for every entry, in order. */
  function PutAll(d: Dict, es: seq<Entry>): Dict
    decreases |es|
  {
    if |es| == 0 then d
    else
      var last := es[|es| - 1];
      Put(PutAll(d, es[..|es| - 1]), last.key, last.value)
  }

  /** One more entry of a list, assigned after its prefix. */
  lemma PutAllPrefix(d: Dict, es: seq<Entry>, i: nat)
    requires i < |es|
    ensures PutAll(d, es[..i + 1]) == Put(PutAll(d, es[..i]), es[i].key, es[i].value)
  {
    assert es[..i + 1][..i] == es[..i];
  }

  /** The value of the last entry with key `k`. */
  function LastValue(es: seq<Entry>, k: string): Option<string>
    decreases |es|
  {
    if |es| == 0 then None
    else if es[|es| - 1].key == k then Some(es[|es| - 1].value)
    else LastValue(es[..|es| - 1], k)
  }

  lemma {:induction false} LastValueSome(es: seq<Entry>, k: string)
    ensures LastValue(es, k).Some? <==> exists i :: 0 <= i < |es| && es[i].key == k
    decreases |es|
  {
    if |es| > 0 {
      var init := es[..|es| - 1];
      LastValueSome(init, k);
      if es[|es| - 1].key != k {
        forall i | 0 <= i < |es| && es[i].key == k ensures exists j :: 0 <= j < |init| && init[j].key == k {
          assert init[i].key == k;
        }
        forall j | 0 <= j < |init| && init[j].key == k ensures exists i :: 0 <= i < |es| && es[i].key == k {
          assert es[j].key == k;
        }
      }
    }
  }

  /** Last write wins: after writing all entries, a key holds its last entry's value, or what it held before. */
  lemma {:induction false} PutAllGet(d: Dict, es: seq<Entry>, k: string)
    ensures Get(PutAll(d, es), k) == if LastValue(es, k).Some? then LastValue(es, k) else Get(d, k)
    decreases |es|
  {
    if |es| > 0 {
      PutAllGet(d, es[..|es| - 1], k);
    }
  }

  lemma {:induction false} PutAllAppend(d: Dict, a: seq<Entry>, b: seq<Entry>)
    ensures PutAll(d, a + b) == PutAll(PutAll(d, a), b)
    decreases |b|
  {
    if |b| == 0 {
      assert a + b == a;
    } else {
      assert (a + b)[..|a + b| - 1] == a + b[..|b| - 1];
      PutAllAppend(d, a, b[..|b| - 1]);
    }
  }

  lemma {:induction false} PutAllDistinct(d: Dict, es: seq<Entry>)
    requires DistinctKeys(d)
    ensures DistinctKeys(PutAll(d, es))
    decreases |es|
  {
    if |es| > 0 {
      PutAllDistinct(d, es[..|es| - 1]);
    }
  }

  /** Writing the entries of an object with distinct keys into an empty one rebuilds that object. */
  lemma {:induction false} PutAllRebuilds(es: seq<Entry>)
    requires DistinctKeys(es)
    ensures PutAll([], es) == es
    decreases |es|
  {
    if |es| > 0 {
      var init := es[..|es| - 1];
      var last := es[|es| - 1];
      LastKeyNew(es);
      PutAllRebuilds(init);
      assert init + [last] == es;
    }
  }

  /** In an object with distinct keys, the last key is not among the earlier ones. */
  lemma LastKeyNew(es: seq<Entry>)
    requires DistinctKeys(es) && |es| > 0
    ensures DistinctKeys(es[..|es| - 1])
    ensures KeyIndex(es[..|es| - 1], es[|es| - 1].key).None?
  {
    var init := es[..|es| - 1];
    assert forall j :: 0 <= j < |init| ==> init[j] == es[j];
  }

  /** A key is present exactly when some entry carries it. */
  lemma GetSome(d: Dict, k: string)
    ensures Get(d, k).Some? <==> exists i :: 0 <= i < |d| && d[i].key == k
  {
  }
}
