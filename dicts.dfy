/** Python's insertion-ordered `dict` with string keys, as a sequence of
    (key, value) entries. Assigning to a present key overwrites its entry in
    place; assigning to an absent key appends an entry; `pop` removes the
    entry. Both scripts depend on this order: it decides the column order of
    the exported CSV and the key order of the restored subscriber. */
module Dicts {

  datatype Option<+T> = None | Some(value: T)

  datatype Result<+T, +E> = Success(value: T) | Failure(error: E)

  type Dict<V> = seq<(string, V)>

  function Keys<V>(d: Dict<V>): (ks: seq<string>)
    ensures |ks| == |d|
    ensures forall i :: 0 <= i < |d| ==> ks[i] == d[i].0
  {
    seq(|d|, i requires 0 <= i < |d| => d[i].0)
  }

  /** No key occurs twice: what every Python dict guarantees. */
  predicate Distinct(ks: seq<string>) {
    forall i, j :: 0 <= i < j < |ks| ==> ks[i] != ks[j]
  }

  predicate UniqueKeys<V>(d: Dict<V>) {
    Distinct(Keys(d))
  }

  /** Position of the first entry with key `k`, or `|d|` when there is none. */
  function Find<V>(d: Dict<V>, k: string): (i: nat)
    ensures i <= |d|
    ensures i < |d| ==> d[i].0 == k
    ensures forall j :: 0 <= j < i ==> d[j].0 != k
  {
    if d == [] then 0
    else if d[0].0 == k then 0
    else 1 + Find(d[1..], k)
  }

  /** `d[k]`, or None where Python raises KeyError. */
  function Get<V>(d: Dict<V>, k: string): (r: Option<V>)
    ensures r.Some? <==> k in Keys(d)
    ensures r.Some? ==> (k, r.value) in d
  {
    var i := Find(d, k);
    if i < |d| then Some(d[i].1) else None
  }

  /** `d[k] = v`. */
  function Set<V>(d: Dict<V>, k: string, v: V): (r: Dict<V>)
    ensures Get(r, k) == Some(v)
    ensures Keys(r) == if k in Keys(d) then Keys(d) else Keys(d) + [k]
  {
    var i := Find(d, k);
    if i < |d| then
      var r := d[i := (k, v)];
      FindIsFirst(r, k, i);
      r
    else
      var r := d + [(k, v)];
      FindIsFirst(r, k, |d|);
      r
  }

  /** `d.pop(k)`, keeping the dict and dropping the returned value. Python
      raises KeyError for an absent key; `PopAt` says which entry goes. */
  function Pop<V>(d: Dict<V>, k: string): (r: Dict<V>)
    requires k in Keys(d)
    ensures |r| == |d| - 1
  {
    var i := Find(d, k);
    d[..i] + d[i + 1..]
  }

  /** Assigns the entries of `ps` one after the other, in order. */
  function SetAll<V>(d: Dict<V>, ps: Dict<V>): Dict<V>
  {
    if ps == [] then d
    else
      var last := ps[|ps| - 1];
      Set(SetAll(d, ps[..|ps| - 1]), last.0, last.1)
  }

  /** Assigning one more entry after the others. */
  lemma SetAllSnoc<V>(d: Dict<V>, ps: Dict<V>, e: (string, V))
    ensures SetAll(d, ps + [e]) == Set(SetAll(d, ps), e.0, e.1)
  {
    assert (ps + [e])[..|ps|] == ps;
  }

  /** The pieces laid out one after the other. */
  function Concat<T>(parts: seq<seq<T>>): seq<T>
  {
    if parts == [] then []
    else Concat(parts[..|parts| - 1]) + parts[|parts| - 1]
  }

  /** A prefix one longer is the shorter prefix and one more element. */
  lemma TakeSnoc<T>(s: seq<T>, n: nat)
    requires n < |s|
    ensures s[..n + 1] == s[..n] + [s[n]]
  {
  }

  /** A slice of a prefix is the same slice of the whole. */
  lemma TakeSlice<T>(s: seq<T>, n: nat, k: nat, j: nat)
    requires k <= j <= n <= |s|
    ensures s[..n][k..j] == s[k..j]
  {
  }

  /** Dropping the last element of a slice that ends one past `n`. */
  lemma SliceFront<T>(s: seq<T>, k: nat, n: nat)
    requires k <= n < |s|
    ensures s[k..n + 1][..n - k] == s[..n][k..n]
  {
    assert |s[k..n + 1][..n - k]| == n - k == |s[..n][k..n]|;
    forall i | 0 <= i < n - k
      ensures s[k..n + 1][..n - k][i] == s[..n][k..n][i]
    {
      assert s[k..n + 1][..n - k][i] == s[k + i];
    }
  }

  /** A non-empty sequence is its front and its last element. */
  lemma LastSplit<T>(s: seq<T>)
    requires s != []
    ensures s == s[..|s| - 1] + [s[|s| - 1]]
  {
  }

  /** Every element of every piece is in the layout. */
  lemma {:induction false} ConcatHas<T>(parts: seq<seq<T>>, i: nat, a: nat)
    requires i < |parts| && a < |parts[i]|
    ensures parts[i][a] in Concat(parts)
  {
    var n := |parts| - 1;
    var init := Concat(parts[..n]);
    assert Concat(parts) == init + parts[n];
    if i < n {
      ConcatHas(parts[..n], i, a);
      assert parts[..n][i] == parts[i];
      var x :| 0 <= x < |init| && init[x] == parts[i][a];
      assert Concat(parts)[x] == parts[i][a];
    } else {
      assert Concat(parts)[|init| + a] == parts[i][a];
    }
  }

  /** `s.startswith(p)`. */
  predicate StartsWith(s: string, p: string) {
    |p| <= |s| && s[..|p|] == p
  }

  /** The first index is the one `Find` reports. */
  lemma FindIsFirst<V>(d: Dict<V>, k: string, j: nat)
    requires j <= |d|
    requires j < |d| ==> d[j].0 == k
    requires forall l :: 0 <= l < j ==> d[l].0 != k
    ensures Find(d, k) == j
  {
  }

  lemma KeysAppend<V>(a: Dict<V>, b: Dict<V>)
    ensures Keys(a + b) == Keys(a) + Keys(b)
  {
  }

  /** The front of a dict with distinct keys has distinct keys. */
  lemma UniquePrefix<V>(a: Dict<V>, b: Dict<V>)
    requires UniqueKeys(a + b)
    ensures UniqueKeys(a)
  {
    KeysAppend(a, b);
    assert forall i :: 0 <= i < |a| ==> Keys(a)[i] == Keys(a + b)[i];
  }

  /** With distinct keys, an entry is exactly what its key looks up. */
  lemma GetAt<V>(d: Dict<V>, i: nat)
    requires UniqueKeys(d) && i < |d|
    ensures Get(d, d[i].0) == Some(d[i].1)
  {
    FindIsFirst(d, d[i].0, i);
  }

  /** With distinct keys, an entry that is there is what its key looks up. */
  lemma GetMember<V>(d: Dict<V>, k: string, v: V)
    requires UniqueKeys(d) && (k, v) in d
    ensures Get(d, k) == Some(v)
  {
    var i :| 0 <= i < |d| && d[i] == (k, v);
    GetAt(d, i);
  }

  /** Assigning a fresh key appends it. */
  lemma SetFresh<V>(d: Dict<V>, k: string, v: V)
    requires k !in Keys(d)
    ensures Set(d, k, v) == d + [(k, v)]
  {
    FindIsFirst(d, k, |d|);
  }

  /** Popping removes the first entry with the key and keeps the others
      in order. */
  lemma PopAt<V>(a: Dict<V>, k: string, v: V, b: Dict<V>)
    requires k !in Keys(a)
    ensures k in Keys(a + [(k, v)] + b)
    ensures Pop(a + [(k, v)] + b, k) == a + b
  {
    var d := a + [(k, v)] + b;
    assert Keys(d)[|a|] == k;
    FindIsFirst(d, k, |a|);
    assert d[..|a|] == a;
    assert d[|a| + 1..] == b;
  }

  /** Popping one key leaves every other key's lookup alone, and a dict
      with distinct keys no longer has the popped one. */
  lemma PopKeepsOthers<V>(d: Dict<V>, k: string, k': string)
    requires k in Keys(d)
    ensures k' != k ==> Get(Pop(d, k), k') == Get(d, k')
    ensures UniqueKeys(d) ==> k !in Keys(Pop(d, k))
  {
    var i := Find(d, k);
    var r := Pop(d, k);
    assert r == d[..i] + d[i + 1..];
    assert forall l :: 0 <= l < i ==> r[l] == d[l];
    assert forall l :: i <= l < |r| ==> r[l] == d[l + 1];
    if k' != k {
      var j := Find(d, k');
      if j < i {
        FindIsFirst(r, k', j);
      } else if j < |d| {
        assert j != i;
        FindIsFirst(r, k', j - 1);
      } else {
        FindIsFirst(r, k', |r|);
      }
    }
  }

  /** Lookups only depend on the keys' order, not on the other values. */
  lemma FindSameKeys<V, W>(a: Dict<V>, b: Dict<W>, k: string)
    requires Keys(a) == Keys(b)
    ensures Find(a, k) == Find(b, k)
  {
    var i := Find(a, k);
    assert forall j :: 0 <= j < |a| ==> a[j].0 == Keys(b)[j];
    FindIsFirst(b, k, i);
  }

  /** Looking up in a dict with one more entry at the end. */
  lemma GetSnoc<V>(d: Dict<V>, k: string, e: (string, V))
    ensures Get(d + [e], k) == if k in Keys(d) then Get(d, k) else if e.0 == k then Some(e.1) else None
  {
    var i := Find(d, k);
    var r := d + [e];
    if i < |d| {
      FindIsFirst(r, k, i);
    } else if e.0 == k {
      FindIsFirst(r, k, |d|);
    } else {
      FindIsFirst(r, k, |r|);
    }
  }

  /** Assigning keeps keys distinct. */
  lemma SetUnique<V>(d: Dict<V>, k: string, v: V)
    requires UniqueKeys(d)
    ensures UniqueKeys(Set(d, k, v))
  {
  }

  /** Assigning one key leaves every other key's lookup alone. */
  lemma SetKeepsOthers<V>(d: Dict<V>, k: string, v: V, k': string)
    requires k' != k
    ensures Get(Set(d, k, v), k') == Get(d, k')
  {
    if Find(d, k) < |d| {
      UpdateKeeps(d, Find(d, k), (k, v), k');
    } else {
      GetSnoc(d, k', (k, v));
    }
  }

  /** Overwriting the entry of one key in place leaves every other key's
      lookup alone. */
  lemma UpdateKeeps<V>(d: Dict<V>, i: nat, e: (string, V), k': string)
    requires i < |d| && d[i].0 == e.0 && k' != e.0
    ensures Get(d[i := e], k') == Get(d, k')
  {
    var r := d[i := e];
    assert forall l :: 0 <= l < |d| ==> r[l].0 == d[l].0;
    FindIsFirst(r, k', Find(d, k'));
  }

  /** Assigning entries whose keys are all fresh and distinct appends them. */
  lemma {:induction false} SetAllFresh<V>(d: Dict<V>, ps: Dict<V>)
    requires Distinct(Keys(d) + Keys(ps))
    ensures SetAll(d, ps) == d + ps
  {
    if ps != [] {
      var n := |ps| - 1;
      var init, last := ps[..n], ps[n];
      FreshSplit(d, ps);
      SetAllFresh(d, init);
      SetFresh(d + init, last.0, last.1);
      SetAllSnoc(d, init, last);
      LastSplit(ps);
      assert d + init + [last] == d + ps;
    }
  }

  /** Splitting off the last of the fresh entries: the others stay fresh
      and distinct, and the last one's key is not among them. */
  lemma FreshSplit<V>(d: Dict<V>, ps: Dict<V>)
    requires ps != [] && Distinct(Keys(d) + Keys(ps))
    ensures Distinct(Keys(d) + Keys(ps[..|ps| - 1]))
    ensures ps[|ps| - 1].0 !in Keys(d + ps[..|ps| - 1])
  {
    var n := |ps| - 1;
    var init, last := ps[..n], ps[n];
    var all := Keys(d) + Keys(ps);
    assert Keys(init) == Keys(ps)[..n];
    assert Keys(d) + Keys(init) == all[..|d| + n];
    KeysAppend(d, init);
    assert all[|d| + n] == last.0;
    forall i | 0 <= i < |d| + n
      ensures Keys(d + init)[i] != last.0
    {
      assert Keys(d + init)[i] == all[i];
    }
  }
}
