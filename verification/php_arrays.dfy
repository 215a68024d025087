/**
 * PHP's ordered arrays, as far as the fetch loops use them: entries in
 * insertion order under distinct keys, "$a[] = v" and "$a[k] = v".
 */
module PhpArrays {
  import opened Common

  /** An array key: an integer, or a string that is not a canonical decimal integer. */
  datatype Key = IntKey(i: int) | StrKey(s: string)

  datatype Entry<V> = Entry(key: Key, value: V)

  /**
   * The key a fetched value becomes: a string that is the canonical decimal
   * form of an integer becomes that integer, NULL becomes "".
   */
  function KeyOf(v: Option<string>): Key {
    if v.None? then StrKey("")
    else if IntToString(StrToInt(v.value)) == v.value then IntKey(StrToInt(v.value))
    else StrKey(v.value)
  }

  /** A printed integer used as a key is that integer. */
  lemma KeyOfPrinted(n: PhpInt)
    ensures KeyOf(Some(IntToString(n))) == IntKey(n)
  {
    StrToIntOfIntToString(n);
  }

  predicate DistinctKeys<V>(a: seq<Entry<V>>) {
    forall i, j :: 0 <= i < j < |a| ==> a[i].key != a[j].key
  }

  /** Where a key sits, -1 when it is absent. */
  function Find<V>(a: seq<Entry<V>>, k: Key): (r: int)
    ensures -1 <= r < |a|
    ensures r >= 0 ==> a[r].key == k
    ensures r < 0 <==> forall i :: 0 <= i < |a| ==> a[i].key != k
    decreases |a|
  {
    if a == [] then -1
    else if a[|a| - 1].key == k then |a| - 1
    else
      var r := Find(a[..|a| - 1], k);
      assert forall i :: 0 <= i < |a| - 1 ==> a[..|a| - 1][i] == a[i];
      r
  }

  /** $a[k], None when the key is absent. */
  function Get<V>(a: seq<Entry<V>>, k: Key): Option<V> {
    var i := Find(a, k);
    if i < 0 then None else Some(a[i].value)
  }

  /** The key "$a[] = v" uses: one past the largest non-negative integer key, 0 when there is none. */
  function NextIndex<V>(a: seq<Entry<V>>): (n: nat)
    ensures forall i :: 0 <= i < |a| && a[i].key.IntKey? ==> a[i].key.i < n
    decreases |a|
  {
    if a == [] then 0
    else
      var init := a[..|a| - 1];
      var n := NextIndex(init);
      var k := a[|a| - 1].key;
      assert forall i :: 0 <= i < |init| ==> init[i] == a[i];
      if k.IntKey? && k.i >= n then k.i + 1 else n
  }

  /** $a[] = v */
  function Push<V>(a: seq<Entry<V>>, v: V): seq<Entry<V>> {
    a + [Entry(IntKey(NextIndex(a)), v)]
  }

  /** $a[k] = v: an existing key keeps its place, a new key goes last. */
  function Set<V>(a: seq<Entry<V>>, k: Key, v: V): seq<Entry<V>> {
    var i := Find(a, k);
    if i >= 0 then a[i := Entry(k, v)] else a + [Entry(k, v)]
  }

  lemma FindAt<V>(a: seq<Entry<V>>, k: Key, j: int)
    requires DistinctKeys(a) && 0 <= j < |a| && a[j].key == k
    ensures Find(a, k) == j
  {
  }

  /**
   * Assignment stores the value under its key, leaves every other key's
   * value alone, keeps the keys distinct and in place, and grows the array
   * only for a new key.
   */
  lemma SetSpec<V>(a: seq<Entry<V>>, k: Key, v: V)
    requires DistinctKeys(a)
    ensures var r := Set(a, k, v);
      && DistinctKeys(r)
      && Get(r, k) == Some(v)
      && (forall k' :: k' != k ==> Get(r, k') == Get(a, k'))
      && |r| == (if Get(a, k).Some? then |a| else |a| + 1)
      && (forall i :: 0 <= i < |a| ==> r[i].key == a[i].key)
  {
    var r := Set(a, k, v);
    var i := Find(a, k);
    assert forall j :: 0 <= j < |a| ==> r[j].key == a[j].key;
    assert r[Find(r, k)].key == k;
    forall k' | k' != k
      ensures Get(r, k') == Get(a, k')
    {
      var j := Find(a, k');
      if j >= 0 {
        FindAt(r, k', j);
      } else {
        assert forall m :: 0 <= m < |r| ==> r[m].key != k';
      }
    }
  }

  /** What an assignment leaves under one key. */
  lemma SetGet<V>(a: seq<Entry<V>>, k: Key, v: V, k': Key)
    requires DistinctKeys(a)
    ensures Get(Set(a, k, v), k') == if k' == k then Some(v) else Get(a, k')
  {
    SetSpec(a, k, v);
  }

  /**
   * Appending stores the value under a fresh integer key and leaves every
   * other key's value alone.
   */
  lemma PushSpec<V>(a: seq<Entry<V>>, v: V)
    requires DistinctKeys(a)
    ensures var r := Push(a, v);
      && DistinctKeys(r) && |r| == |a| + 1
      && Get(a, IntKey(NextIndex(a))).None?
      && Get(r, IntKey(NextIndex(a))) == Some(v)
      && (forall k' :: k' != IntKey(NextIndex(a)) ==> Get(r, k') == Get(a, k'))
  {
    var r := Push(a, v);
    var k := IntKey(NextIndex(a));
    assert forall j :: 0 <= j < |a| ==> a[j].key != k;
    FindAt(r, k, |a|);
    forall k' | k' != k
      ensures Get(r, k') == Get(a, k')
    {
      var j := Find(a, k');
      if j >= 0 {
        FindAt(r, k', j);
      }
    }
  }

  /** A list: the keys are 0, 1, 2, ... in order. */
  predicate Listed<V>(a: seq<Entry<V>>) {
    forall i :: 0 <= i < |a| ==> a[i].key == IntKey(i)
  }

  /** The list of the given values. */
  function ListOf<V>(xs: seq<V>): (r: seq<Entry<V>>)
    ensures |r| == |xs| && Listed(r)
    ensures forall i :: 0 <= i < |r| ==> r[i].value == xs[i]
    decreases |xs|
  {
    if xs == [] then []
    else
      var init := xs[..|xs| - 1];
      var r := ListOf(init) + [Entry(IntKey(|xs| - 1), xs[|xs| - 1])];
      assert forall i :: 0 <= i < |init| ==> init[i] == xs[i];
      r
  }

  lemma {:induction false} ListedNext<V>(a: seq<Entry<V>>)
    requires Listed(a)
    ensures NextIndex(a) == |a|
    decreases |a|
  {
    if a != [] {
      var init := a[..|a| - 1];
      assert Listed(init);
      ListedNext(init);
    }
  }

  /** Appending to a list of values lists one more value. */
  lemma PushListOf<V>(xs: seq<V>, x: V)
    ensures Push(ListOf(xs), x) == ListOf(xs + [x])
  {
    ListedNext(ListOf(xs));
    var l := ListOf(xs + [x]);
    assert (xs + [x])[..|xs|] == xs;
  }

  /** The array built by assigning each entry's value under its key, in order, starting empty. */
  function Assign<V>(pairs: seq<Entry<V>>): seq<Entry<V>>
    decreases |pairs|
  {
    if pairs == [] then []
    else Set(Assign(pairs[..|pairs| - 1]), pairs[|pairs| - 1].key, pairs[|pairs| - 1].value)
  }

  /** The last assignment to a key wins. */
  predicate LastWith<V>(pairs: seq<Entry<V>>, k: Key, i: int) {
    0 <= i < |pairs| && pairs[i].key == k && forall j :: i < j < |pairs| ==> pairs[j].key != k
  }

  /** Assigning in order keeps the keys distinct. */
  lemma {:induction false} AssignDistinctKeys<V>(pairs: seq<Entry<V>>)
    ensures DistinctKeys(Assign(pairs))
    decreases |pairs|
  {
    if pairs != [] {
      var n := |pairs| - 1;
      AssignDistinctKeys(pairs[..n]);
      SetSpec(Assign(pairs[..n]), pairs[n].key, pairs[n].value);
    }
  }

  /** Assigning in order holds a key exactly when some entry names it. */
  lemma {:induction false} AssignHas<V>(pairs: seq<Entry<V>>, k: Key)
    ensures Get(Assign(pairs), k).None? <==> forall i :: 0 <= i < |pairs| ==> pairs[i].key != k
    decreases |pairs|
  {
    if pairs != [] {
      var n := |pairs| - 1;
      var init := pairs[..n];
      AssignHas(init, k);
      AssignDistinctKeys(init);
      SetGet(Assign(init), pairs[n].key, pairs[n].value, k);
      assert forall i :: 0 <= i < n ==> init[i] == pairs[i];
    }
  }

  /** Assigning in order holds, under a key, the value of the last entry naming it. */
  lemma {:induction false} AssignLastWins<V>(pairs: seq<Entry<V>>, k: Key)
    ensures Get(Assign(pairs), k).Some? ==> exists i :: LastWith(pairs, k, i) && Get(Assign(pairs), k).value == pairs[i].value
    decreases |pairs|
  {
    if pairs != [] {
      var n := |pairs| - 1;
      var init := pairs[..n];
      var a := Assign(init);
      AssignDistinctKeys(init);
      SetGet(a, pairs[n].key, pairs[n].value, k);
      if pairs[n].key == k {
        assert LastWith(pairs, k, n);
      } else if Get(a, k).Some? {
        AssignLastWins(init, k);
        var i :| LastWith(init, k, i) && Get(a, k).value == init[i].value;
        assert init[i] == pairs[i];
        assert LastWith(pairs, k, i);
      }
    }
  }

  /** Distinct values become distinct keys. */
  lemma KeyOfInjective(a: string, b: string)
    requires a != b
    ensures KeyOf(Some(a)) != KeyOf(Some(b))
  {
  }

  /** Assigning under keys that are already distinct builds exactly those entries. */
  lemma {:induction false} AssignDistinct<V>(pairs: seq<Entry<V>>)
    requires DistinctKeys(pairs)
    ensures Assign(pairs) == pairs
    decreases |pairs|
  {
    if pairs != [] {
      var n := |pairs| - 1;
      var init := pairs[..n];
      assert DistinctKeys(init);
      AssignDistinct(init);
      assert forall i :: 0 <= i < n ==> init[i].key != pairs[n].key;
    }
  }
}
