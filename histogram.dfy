/** A counting dictionary as the log analysis builds it with
    `counts[k] = counts.get(k, 0) + 1`: keys in insertion order, each with
    its count. */
module Histogram {

  datatype Entry<K> = Entry(key: K, count: nat)

  /** The dictionary's items, in insertion order. */
  type Counts<K> = seq<Entry<K>>

  /** Keys are distinct and every stored count is at least one. */
  ghost predicate Valid<K>(h: Counts<K>) {
    && (forall i, j :: 0 <= i < j < |h| ==> h[i].key != h[j].key)
    && (forall i :: 0 <= i < |h| ==> h[i].count >= 1)
  }

  /** The keys, in insertion order. */
  function Keys<K>(h: Counts<K>): (ks: seq<K>)
    ensures |ks| == |h|
    ensures forall i :: 0 <= i < |h| ==> ks[i] == h[i].key
    decreases |h|
  {
    if h == [] then [] else [h[0].key] + Keys(h[1..])
  }

  /** `counts.get(k, 0)`. */
  function Get<K(==)>(h: Counts<K>, k: K): nat
    decreases |h|
  {
    if h == [] then 0
    else if h[0].key == k then h[0].count
    else Get(h[1..], k)
  }

  /** `counts[k] = counts.get(k, 0) + 1`: an existing key keeps its place,
      a new one goes to the end. */
  function Increment<K(==)>(h: Counts<K>, k: K): Counts<K>
    decreases |h|
  {
    if h == [] then [Entry(k, 1)]
    else if h[0].key == k then [Entry(k, h[0].count + 1)] + h[1..]
    else [h[0]] + Increment(h[1..], k)
  }

  /** `sum(counts.values())`. */
  function Total<K>(h: Counts<K>): nat
    decreases |h|
  {
    if h == [] then 0 else h[0].count + Total(h[1..])
  }

  /** A key that is not stored reads as 0. */
  lemma {:induction false} GetAbsent<K>(h: Counts<K>, k: K)
    requires k !in Keys(h)
    ensures Get(h, k) == 0
    decreases |h|
  {
    if h != [] {
      assert Keys(h[1..]) == Keys(h)[1..];
      GetAbsent(h[1..], k);
    }
  }

  /** A stored key of a valid dictionary reads as a positive count. */
  lemma {:induction false} GetPresent<K>(h: Counts<K>, k: K)
    requires Valid(h) && k in Keys(h)
    ensures Get(h, k) >= 1
    decreases |h|
  {
    if h[0].key != k {
      assert Keys(h[1..]) == Keys(h)[1..];
      GetPresent(h[1..], k);
    }
  }

  /** Incrementing a stored key keeps the key order. */
  lemma {:induction false} IncrementStored<K>(h: Counts<K>, k: K)
    requires k in Keys(h)
    ensures Keys(Increment(h, k)) == Keys(h)
    decreases |h|
  {
    var r := Increment(h, k);
    if h[0].key != k {
      IncrementStored(h[1..], k);
      assert r[1..] == Increment(h[1..], k);
    } else {
      assert r[1..] == h[1..];
    }
  }

  /** Incrementing a new key appends it. */
  lemma {:induction false} IncrementNew<K>(h: Counts<K>, k: K)
    requires k !in Keys(h)
    ensures Keys(Increment(h, k)) == Keys(h) + [k]
    decreases |h|
  {
    if h != [] {
      var r := Increment(h, k);
      IncrementNew(h[1..], k);
      assert r[1..] == Increment(h[1..], k);
    }
  }

  /** An increment changes the key order only by appending a new key. */
  lemma IncrementKeys<K>(h: Counts<K>, k: K)
    ensures Keys(Increment(h, k)) == if k in Keys(h) then Keys(h) else Keys(h) + [k]
  {
    if k in Keys(h) {
      IncrementStored(h, k);
    } else {
      IncrementNew(h, k);
    }
  }

  /** An increment adds one to `k`'s count and leaves every other key's
      count alone. */
  lemma {:induction false} IncrementGet<K>(h: Counts<K>, k: K, j: K)
    ensures Get(Increment(h, k), j) == if j == k then Get(h, j) + 1 else Get(h, j)
    decreases |h|
  {
    if h != [] {
      if h[0].key != k {
        IncrementGet(h[1..], k, j);
        assert Increment(h, k)[1..] == Increment(h[1..], k);
      } else {
        assert Increment(h, k)[1..] == h[1..];
      }
    }
  }

  /** An increment adds one to the total. */
  lemma {:induction false} IncrementTotal<K>(h: Counts<K>, k: K)
    ensures Total(Increment(h, k)) == Total(h) + 1
    decreases |h|
  {
    if h != [] {
      if h[0].key != k {
        IncrementTotal(h[1..], k);
        assert Increment(h, k)[1..] == Increment(h[1..], k);
      } else {
        assert Increment(h, k)[1..] == h[1..];
      }
    }
  }

  /** An increment keeps the keys distinct and the counts positive. */
  lemma {:induction false} IncrementValid<K>(h: Counts<K>, k: K)
    requires Valid(h)
    ensures Valid(Increment(h, k))
    decreases |h|
  {
    var r := Increment(h, k);
    IncrementKeys(h, k);
    forall i, j | 0 <= i < j < |r|
      ensures r[i].key != r[j].key
    {
      assert Keys(r)[i] == r[i].key && Keys(r)[j] == r[j].key;
    }
    forall i | 0 <= i < |r|
      ensures r[i].count >= 1
    {
      IncrementCounts(h, k, i);
    }
  }

  /** Every count an increment stores is at least one when every count
      before it was. */
  lemma {:induction false} IncrementCounts<K>(h: Counts<K>, k: K, i: nat)
    requires forall n :: 0 <= n < |h| ==> h[n].count >= 1
    requires i < |Increment(h, k)|
    ensures Increment(h, k)[i].count >= 1
    decreases |h|
  {
    if h != [] && h[0].key != k && i > 0 {
      IncrementCounts(h[1..], k, i - 1);
      assert Increment(h, k)[i] == Increment(h[1..], k)[i - 1];
    }
  }

  /** One increment adds one to `k`'s count and to the total, leaves every
      other key's count alone, keeps the dictionary valid, and changes the
      key order only by appending a new key. */
  lemma IncrementSpec<K>(h: Counts<K>, k: K)
    requires Valid(h)
    ensures Valid(Increment(h, k))
    ensures Get(Increment(h, k), k) == Get(h, k) + 1
    ensures forall j :: j != k ==> Get(Increment(h, k), j) == Get(h, j)
    ensures Total(Increment(h, k)) == Total(h) + 1
    ensures Keys(Increment(h, k)) == if k in Keys(h) then Keys(h) else Keys(h) + [k]
  {
    IncrementValid(h, k);
    IncrementTotal(h, k);
    IncrementKeys(h, k);
    forall j {
      IncrementGet(h, k, j);
    }
  }

  /** Counting every key of `ks` in order, from an empty dictionary. */
  function CountAll<K(==)>(ks: seq<K>): Counts<K>
    decreases |ks|
  {
    if ks == [] then [] else Increment(CountAll(ks[..|ks| - 1]), ks[|ks| - 1])
  }

  /** Counting one more key is one more increment. */
  lemma CountAllSnoc<K>(ks: seq<K>, k: K)
    ensures CountAll(ks + [k]) == Increment(CountAll(ks), k)
  {
    assert (ks + [k])[..|ks|] == ks;
  }

  /** The counts are the numbers of occurrences, they add up to the number
      of keys counted, every stored count is at least one, and exactly the
      keys that occur are stored. */
  lemma {:induction false} CountAllSpec<K>(ks: seq<K>)
    ensures Valid(CountAll(ks))
    ensures forall k :: Get(CountAll(ks), k) == multiset(ks)[k]
    ensures Total(CountAll(ks)) == |ks|
    ensures forall k :: k in Keys(CountAll(ks)) <==> k in ks
    decreases |ks|
  {
    if ks != [] {
      var front, last := ks[..|ks| - 1], ks[|ks| - 1];
      assert ks == front + [last];
      CountAllSpec(front);
      IncrementSpec(CountAll(front), last);
    }
  }
}
