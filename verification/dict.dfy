/**
 * A Python dict from country name to score. Python dicts keep their keys
 * unique and in insertion order, so the model is an association list whose
 * keys are pairwise distinct; `d[k] = v` replaces the value of an existing
 * key in place and appends a new key at the end.
 */
module Dict {
  import opened Wrappers

  predicate DistinctKeys(d: seq<(string, real)>)
  {
    forall i, j :: 0 <= i < j < |d| ==> d[i].0 != d[j].0
  }

  type Dict = d: seq<(string, real)> | DistinctKeys(d)

  predicate HasKey(d: Dict, k: string)
  {
    exists i :: 0 <= i < |d| && d[i].0 == k
  }

  /** The position of key `k`, if present. */
  function Find(d: seq<(string, real)>, k: string): (r: Option<nat>)
    ensures r.Some? ==> r.value < |d| && d[r.value].0 == k
    ensures r.None? ==> forall i :: 0 <= i < |d| ==> d[i].0 != k
  {
    if d == [] then None
    else if d[0].0 == k then Some(0)
    else match Find(d[1..], k)
      case None => None
      case Some(i) => Some(i + 1)
  }

  /** `d.get(k)` */
  function Get(d: Dict, k: string): (r: Option<real>)
  {
    match Find(d, k)
    case None => None
    case Some(i) => Some(d[i].1)
  }

  /** `d[k] = v` */
  function Put(d: Dict, k: string, v: real): (r: Dict)
    ensures Get(r, k) == Some(v)
    ensures forall k' :: k' != k ==> Get(r, k') == Get(d, k')
    ensures !HasKey(d, k) ==> r == d + [(k, v)]
    ensures HasKey(d, k) ==> Find(d, k).Some? && r == d[Find(d, k).value := (k, v)]
    ensures |r| == |d| + (if HasKey(d, k) then 0 else 1)
  {
    match Find(d, k)
    case None =>
      var r := d + [(k, v)];
      PutFacts(d, r, k, v, |d|);
      r
    case Some(i) =>
      var r := d[i := (k, v)];
      PutFacts(d, r, k, v, i);
      r
  }

  /** What `Get` sees after the entry at position `i` becomes `(k, v)`. */
  lemma PutFacts(d: Dict, r: seq<(string, real)>, k: string, v: real, i: nat)
    requires Find(d, k) == (if i == |d| then None else Some(i))
    requires r == if i == |d| then d + [(k, v)] else d[i := (k, v)]
    ensures DistinctKeys(r)
    ensures Get(r, k) == Some(v)
    ensures forall k' :: k' != k ==> Get(r, k') == Get(d, k')
  {
    FindUnique(r, k, i);
    forall k' | k' != k ensures Get(r, k') == Get(d, k') {
      match Find(d, k')
      case None => FindUnique(r, k', -1);
      case Some(j) => FindUnique(d, k', j); FindUnique(r, k', j);
    }
  }

  /** Sum of the values, `sum(d.values())`, taken in insertion order. */
  function Sum(d: seq<(string, real)>): (total: real)
  {
    if d == [] then 0.0 else Sum(d[..|d| - 1]) + d[|d| - 1].1
  }

  /** In a dict, the position of a key is determined by the key. */
  lemma {:induction false} FindUnique(d: Dict, k: string, i: int)
    requires i == -1 ==> forall j :: 0 <= j < |d| ==> d[j].0 != k
    requires i != -1 ==> 0 <= i < |d| && d[i].0 == k
    ensures Find(d, k) == if i == -1 then None else Some(i)
  {
    if d != [] && d[0].0 != k {
      FindUnique(d[1..], k, if i == -1 then -1 else i - 1);
    }
  }

  lemma HasKeyFind(d: Dict, k: string)
    ensures HasKey(d, k) <==> Find(d, k).Some?
  {
  }

  /** Adding a new key adds its value to the sum and leaves the old entries in place. */
  lemma {:induction false} SumPutNew(d: Dict, k: string, v: real)
    requires Get(d, k).None?
    ensures Sum(Put(d, k, v)) == Sum(d) + v
  {
    HasKeyFind(d, k);
    var r := d + [(k, v)];
    assert r[..|r| - 1] == d;
  }

  /** `d[k] = v` leaves the value of every other key as it was. */
  lemma PutOther(d: Dict, k: string, v: real, k': string)
    requires k' != k
    ensures Get(Put(d, k, v), k') == Get(d, k')
  {
  }

  /** Replacing a key's value by the value it already has changes nothing. */
  lemma PutSameValue(d: Dict, k: string)
    requires Get(d, k).Some?
    ensures Put(d, k, Get(d, k).value) == d
  {
  }
}
