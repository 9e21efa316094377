/** Python's dict[str, float]: string keys, each at most once, in insertion order, with
    the subscript assignment and get() the code uses. */
module FloatDicts {

  predicate DistinctKeys(d: seq<(string, real)>)
  {
    forall i, j :: 0 <= i < j < |d| ==> d[i].0 != d[j].0
  }

  /** A dict[str, float], as (key, value) pairs in insertion order. */
  type FloatDict = d: seq<(string, real)> | DistinctKeys(d) witness []

  function Keys(d: seq<(string, real)>): (ks: seq<string>)
    ensures |ks| == |d| && forall i :: 0 <= i < |d| ==> ks[i] == d[i].0
  {
    if d == [] then [] else [d[0].0] + Keys(d[1..])
  }

  /** Where key k sits in d. */
  function IndexOf(d: seq<(string, real)>, k: string): (i: nat)
    requires k in Keys(d)
    ensures i < |d| && d[i].0 == k
  {
    if d[0].0 == k then 0 else 1 + IndexOf(d[1..], k)
  }

  lemma IndexOfIsThePosition(d: FloatDict, k: string, i: nat)
    requires i < |d| && d[i].0 == k
    ensures k in Keys(d) && IndexOf(d, k) == i
  {
    assert Keys(d)[i] == k;
  }

  /** d.get(k, default) */
  function Get(d: FloatDict, k: string, default: real): real
  {
    if k in Keys(d) then d[IndexOf(d, k)].1 else default
  }

  /** d[k] = v: an existing key keeps its place, a new key goes last. */
  function Assign(d: FloatDict, k: string, v: real): FloatDict
  {
    if k in Keys(d) then
      var r := d[IndexOf(d, k) := (k, v)];
      assert forall i :: 0 <= i < |d| ==> r[i].0 == d[i].0;
      r
    else
      d + [(k, v)]
  }

  /** Assigning to a key that is already present sets that key, keeps the key sequence
      (and so the order) and leaves every other entry as it was. */
  lemma AssignExisting(d: FloatDict, k: string, v: real)
    requires k in Keys(d)
    ensures Keys(Assign(d, k, v)) == Keys(d)
    ensures forall dflt :: Get(Assign(d, k, v), k, dflt) == v
    ensures forall k', dflt :: k' != k ==> Get(Assign(d, k, v), k', dflt) == Get(d, k', dflt)
  {
    var r := Assign(d, k, v);
    var i := IndexOf(d, k);
    assert Keys(r) == Keys(d);
    IndexOfIsThePosition(r, k, i);
    forall k' | k' != k && k' in Keys(d)
      ensures IndexOf(r, k') == IndexOf(d, k')
    {
      IndexOfIsThePosition(r, k', IndexOf(d, k'));
    }
  }
}
