/**
 * A Python dict with text keys as the program uses one: keys in insertion order, assignment to a
 * present key keeps its place, assignment to a new key appends it, `pop` removes it.
 */
module PyDict {
  import opened Wrappers

  type Dict<V> = seq<(string, V)>

  function Keys<V>(d: Dict<V>): (r: seq<string>)
    ensures |r| == |d|
    ensures forall i :: 0 <= i < |d| ==> r[i] == d[i].0
  {
    seq(|d|, i requires 0 <= i < |d| => d[i].0)
  }

  predicate DistinctKeys<V>(d: Dict<V>) {
    forall i, j :: 0 <= i < j < |d| ==> d[i].0 != d[j].0
  }

  /** The position of key `k`. */
  function KeyIndex<V>(d: Dict<V>, k: string): (p: nat)
    requires k in Keys(d)
    ensures p < |d| && d[p].0 == k
    ensures forall j :: 0 <= j < p ==> d[j].0 != k
  {
    if d[0].0 == k then 0
    else
      assert k in Keys(d[1..]) by {
        var i :| 0 <= i < |d| && Keys(d)[i] == k;
        assert Keys(d[1..])[i - 1] == k;
      }
      KeyIndex(d[1..], k) + 1
  }

  /** `d.get(k)`: the value under `k`, or None when `k` is not a key. */
  function Get<V>(d: Dict<V>, k: string): (r: Option<V>)
    ensures r.Some? <==> k in Keys(d)
  {
    if k in Keys(d) then Some(d[KeyIndex(d, k)].1) else None
  }

  /** `d[k] = v`. */
  function Set<V>(d: Dict<V>, k: string, v: V): (r: Dict<V>)
    ensures Keys(r) == if k in Keys(d) then Keys(d) else Keys(d) + [k]
  {
    if k in Keys(d) then d[KeyIndex(d, k) := (k, v)] else d + [(k, v)]
  }

  /** `d.pop(k)` for a key `k` of `d`. */
  function Pop<V>(d: Dict<V>, k: string): (r: Dict<V>)
    requires k in Keys(d)
    ensures |r| == |d| - 1
  {
    var p := KeyIndex(d, k);
    d[..p] + d[p + 1..]
  }

  /** After `d[k] = v`, `k` reads `v` and every other key reads what it read before. */
  lemma GetSet<V>(d: Dict<V>, k: string, v: V, k': string)
    ensures Get(Set(d, k, v), k') == if k' == k then Some(v) else Get(d, k')
  {
    var r := Set(d, k, v);
    if k' in Keys(d) {
      var q := KeyIndex(d, k');
      assert r[q].0 == k';
      assert forall j :: 0 <= j < q ==> r[j].0 == d[j].0;
    } else if k' == k {
      assert r[|d|] == (k, v);
    }
  }

  lemma SetDistinct<V>(d: Dict<V>, k: string, v: V)
    requires DistinctKeys(d)
    ensures DistinctKeys(Set(d, k, v))
  {
    var r := Set(d, k, v);
    forall i, j | 0 <= i < j < |r| ensures r[i].0 != r[j].0 {
      assert Keys(r)[i] == r[i].0 && Keys(r)[j] == r[j].0;
      if k !in Keys(d) && j == |d| {
        assert Keys(r)[i] == Keys(d)[i];
      } else {
        assert Keys(r)[i] == Keys(d)[i] && Keys(r)[j] == Keys(d)[j];
      }
    }
  }

  /** Where the entries of `d.pop(k)` come from. */
  lemma PopAt<V>(d: Dict<V>, k: string)
    requires k in Keys(d)
    ensures forall i :: 0 <= i < KeyIndex(d, k) ==> Pop(d, k)[i] == d[i]
    ensures forall i :: KeyIndex(d, k) <= i < |d| - 1 ==> Pop(d, k)[i] == d[i + 1]
  {
    var p := KeyIndex(d, k);
    var r := d[..p] + d[p + 1..];
    assert Pop(d, k) == r;
    forall i | 0 <= i < p ensures r[i] == d[i] {
      assert r[i] == d[..p][i];
    }
    forall i | p <= i < |d| - 1 ensures r[i] == d[i + 1] {
      assert r[i] == d[p + 1..][i - p];
    }
  }

  /** After `d.pop(k)`, `k` is no longer a key. */
  lemma GetPopRemoved<V>(d: Dict<V>, k: string)
    requires DistinctKeys(d) && k in Keys(d)
    ensures Get(Pop(d, k), k) == None
  {
    var p := KeyIndex(d, k);
    var r := Pop(d, k);
    PopAt(d, k);
    forall i | 0 <= i < |r| ensures Keys(r)[i] != k {
      if i >= p {
        assert r[i] == d[i + 1];
      }
    }
  }

  /** After `d.pop(k)`, every other key reads what it read before. */
  lemma GetPopKept<V>(d: Dict<V>, k: string, k': string)
    requires k in Keys(d) && k' != k
    ensures Get(Pop(d, k), k') == Get(d, k')
  {
    var p := KeyIndex(d, k);
    var r := Pop(d, k);
    PopAt(d, k);
    if k' in Keys(d) {
      var q := KeyIndex(d, k');
      var q' := if q < p then q else q - 1;
      assert r[q'] == d[q];
      assert Keys(r)[q'] == k';
      forall t | 0 <= t < q' ensures r[t].0 != k' {
        if t >= p {
          assert r[t] == d[t + 1];
        }
      }
      assert KeyIndex(r, k') == q';
    } else {
      forall i | 0 <= i < |r| ensures Keys(r)[i] != k' {
        if i < p {
          assert r[i] == d[i] && Keys(d)[i] == d[i].0;
        } else {
          assert r[i] == d[i + 1] && Keys(d)[i + 1] == d[i + 1].0;
        }
      }
    }
  }

  lemma PopDistinct<V>(d: Dict<V>, k: string)
    requires DistinctKeys(d) && k in Keys(d)
    ensures DistinctKeys(Pop(d, k))
  {
    var p := KeyIndex(d, k);
    var r := Pop(d, k);
    PopAt(d, k);
    forall i, j | 0 <= i < j < |r| ensures r[i].0 != r[j].0 {
      var i' := if i < p then i else i + 1;
      var j' := if j < p then j else j + 1;
      assert r[i] == d[i'] && r[j] == d[j'];
    }
  }
}
