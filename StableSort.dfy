/**
 * Stable sorting by an integer key, highest key first: what
 * `array.sort((a, b) => key(b) - key(a))` does in JavaScript, where the
 * language guarantees that `Array.prototype.sort` is stable.
 *
 * A stable descending sort is characterised by two facts: the output is
 * non-increasing in the key, and for every key k the elements with key k
 * appear in the output in exactly the order they had in the input (their
 * "bucket" is unchanged). `SortedSameBucketsUnique` shows that these two
 * facts determine the output, and `StableSortDesc` is a reference
 * definition that has them.
 */
module StableSort {

  /** The elements of `s` whose key is `k`, in their order in `s`. */
  function Bucket<T>(s: seq<T>, key: T -> int, k: int): seq<T>
  {
    if s == [] then [] else (if key(s[0]) == k then [s[0]] else []) + Bucket(s[1..], key, k)
  }

  /** Non-increasing in the key. */
  predicate SortedDesc<T>(s: seq<T>, key: T -> int) {
    forall i, j :: 0 <= i < j < |s| ==> key(s[i]) >= key(s[j])
  }

  /** For every key, `s` and `t` hold the same elements with that key, in the same order. */
  ghost predicate SameBuckets<T>(s: seq<T>, t: seq<T>, key: T -> int) {
    forall k :: Bucket(s, key, k) == Bucket(t, key, k)
  }

  /** Place `x` in front of the first element whose key is not above its own. */
  function Insert<T>(x: T, s: seq<T>, key: T -> int): (r: seq<T>)
    ensures |r| == |s| + 1
  {
    if s == [] || key(s[0]) <= key(x) then [x] + s else [s[0]] + Insert(x, s[1..], key)
  }

  /** Reference stable descending sort: insertion sort from the back. */
  function StableSortDesc<T>(s: seq<T>, key: T -> int): (r: seq<T>)
    ensures |r| == |s|
  {
    if s == [] then [] else Insert(s[0], StableSortDesc(s[1..], key), key)
  }

  lemma {:induction false} BucketConcat<T>(a: seq<T>, b: seq<T>, key: T -> int, k: int)
    ensures Bucket(a + b, key, k) == Bucket(a, key, k) + Bucket(b, key, k)
  {
    if a == [] {
      assert a + b == b;
    } else {
      var h := if key(a[0]) == k then [a[0]] else [];
      assert (a + b)[0] == a[0];
      assert (a + b)[1..] == a[1..] + b;
      BucketConcat(a[1..], b, key, k);
      calc {
        Bucket(a + b, key, k);
        h + Bucket(a[1..] + b, key, k);
        h + (Bucket(a[1..], key, k) + Bucket(b, key, k));
        (h + Bucket(a[1..], key, k)) + Bucket(b, key, k);
      }
    }
  }

  /** Two neighbours with different keys may change places without disturbing any bucket. */
  lemma SwapAdjacent<T>(s: seq<T>, j: int, key: T -> int)
    requires 0 < j < |s| && key(s[j - 1]) != key(s[j])
    ensures SameBuckets(s[j - 1 := s[j]][j := s[j - 1]], s, key)
  {
    var t := s[j - 1 := s[j]][j := s[j - 1]];
    var pre, post := s[..j - 1], s[j + 1..];
    assert s == pre + [s[j - 1], s[j]] + post;
    assert t == pre + [s[j], s[j - 1]] + post;
    forall k ensures Bucket(t, key, k) == Bucket(s, key, k) {
      BucketConcat(pre + [s[j - 1], s[j]], post, key, k);
      BucketConcat(pre, [s[j - 1], s[j]], key, k);
      BucketConcat(pre + [s[j], s[j - 1]], post, key, k);
      BucketConcat(pre, [s[j], s[j - 1]], key, k);
      assert [s[j - 1], s[j]][1..] == [s[j]];
      assert [s[j], s[j - 1]][1..] == [s[j - 1]];
    }
  }

  /** Insertion moves `x` only past elements with a higher key, so no bucket changes. */
  lemma {:induction false} InsertBuckets<T>(x: T, s: seq<T>, key: T -> int, k: int)
    ensures Bucket(Insert(x, s, key), key, k) == Bucket([x] + s, key, k)
  {
    if s != [] && key(s[0]) > key(x) {
      var r := Insert(x, s[1..], key);
      InsertBuckets(x, s[1..], key, k);
      assert ([s[0]] + r)[1..] == r;
      assert ([x] + s)[1..] == s;
      assert ([x] + s[1..])[1..] == s[1..];
    }
  }

  /** A sorted sequence stays sorted under a head whose key bounds all of its keys. */
  lemma ConsSorted<T>(h: T, r: seq<T>, key: T -> int)
    requires SortedDesc(r, key)
    requires forall m :: 0 <= m < |r| ==> key(r[m]) <= key(h)
    ensures SortedDesc([h] + r, key)
  {
    forall i, j | 0 <= i < j < |[h] + r| ensures key(([h] + r)[i]) >= key(([h] + r)[j]) {
      assert ([h] + r)[j] == r[j - 1];
      if i > 0 {
        assert ([h] + r)[i] == r[i - 1];
      }
    }
  }

  /** Insertion keeps a bound that `x` and every element of `s` respect. */
  lemma {:induction false} InsertBound<T>(x: T, s: seq<T>, key: T -> int, b: int)
    requires key(x) <= b
    requires forall m :: 0 <= m < |s| ==> key(s[m]) <= b
    ensures forall m :: 0 <= m < |Insert(x, s, key)| ==> key(Insert(x, s, key)[m]) <= b
  {
    if s != [] && key(s[0]) > key(x) {
      InsertBound(x, s[1..], key, b);
    }
  }

  /** Insertion into a sorted sequence yields a sorted sequence. */
  lemma {:induction false} InsertSorted<T>(x: T, s: seq<T>, key: T -> int)
    requires SortedDesc(s, key)
    ensures SortedDesc(Insert(x, s, key), key)
  {
    if s == [] || key(s[0]) <= key(x) {
      ConsSorted(x, s, key);
    } else {
      var tail := s[1..];
      InsertSorted(x, tail, key);
      assert forall m :: 0 <= m < |tail| ==> tail[m] == s[m + 1];
      InsertBound(x, tail, key, key(s[0]));
      ConsSorted(s[0], Insert(x, tail, key), key);
    }
  }

  /** Insertion adds exactly `x`: the result holds the elements of `s` and one more `x`. */
  lemma {:induction false} InsertPermutes<T>(x: T, s: seq<T>, key: T -> int)
    ensures multiset(Insert(x, s, key)) == multiset([x] + s)
  {
    if s != [] && key(s[0]) > key(x) {
      InsertPermutes(x, s[1..], key);
      assert s == [s[0]] + s[1..];
    }
  }

  /** The reference sort is a permutation of its input. */
  lemma {:induction false} StableSortDescPermutes<T>(s: seq<T>, key: T -> int)
    ensures multiset(StableSortDesc(s, key)) == multiset(s)
  {
    if s != [] {
      StableSortDescPermutes(s[1..], key);
      InsertPermutes(s[0], StableSortDesc(s[1..], key), key);
      assert s == [s[0]] + s[1..];
    }
  }

  /** A bucket holds only elements of `s` with that key. */
  lemma {:induction false} BucketMembers<T>(s: seq<T>, key: T -> int, k: int, y: T)
    requires y in Bucket(s, key, k)
    ensures y in s && key(y) == k
  {
    if s != [] && !(key(s[0]) == k && y == s[0]) {
      BucketMembers(s[1..], key, k, y);
    }
  }

  /** An element of `s` is found in its own bucket. */
  lemma {:induction false} BucketHas<T>(s: seq<T>, key: T -> int, y: T)
    requires y in s
    ensures y in Bucket(s, key, key(y))
  {
    if s[0] != y {
      BucketHas(s[1..], key, y);
    }
  }

  /** The reference sort is sorted, and keeps every bucket as it was in the input. */
  lemma {:induction false} StableSortDescCorrect<T>(s: seq<T>, key: T -> int)
    ensures SortedDesc(StableSortDesc(s, key), key)
    ensures SameBuckets(StableSortDesc(s, key), s, key)
    ensures |StableSortDesc(s, key)| == |s|
  {
    if s != [] {
      var r := StableSortDesc(s[1..], key);
      StableSortDescCorrect(s[1..], key);
      InsertSorted(s[0], r, key);
      forall k ensures Bucket(Insert(s[0], r, key), key, k) == Bucket(s, key, k) {
        InsertBuckets(s[0], r, key, k);
        assert ([s[0]] + r)[1..] == r;
      }
    }
  }

  /** A sequence whose every bucket is empty is empty. */
  lemma NoBucketsEmpty<T>(a: seq<T>, key: T -> int)
    requires forall k :: Bucket(a, key, k) == []
    ensures a == []
  {
    if a != [] {
      BucketHas(a, key, a[0]);
    }
  }

  /** Sorted sequences with the same buckets start with the same element. */
  lemma SortedSameBucketsHead<T>(a: seq<T>, b: seq<T>, key: T -> int)
    requires SortedDesc(a, key) && SortedDesc(b, key) && SameBuckets(a, b, key)
    requires a != [] && b != []
    ensures a[0] == b[0]
  {
    var ka, kb := key(a[0]), key(b[0]);
    BucketHas(a, key, a[0]);
    var ya :| ya in Bucket(b, key, ka);
    BucketMembers(b, key, ka, ya);
    var i :| 0 <= i < |b| && b[i] == ya;
    assert ka <= kb;
    BucketHas(b, key, b[0]);
    var yb :| yb in Bucket(a, key, kb);
    BucketMembers(a, key, kb, yb);
    var j :| 0 <= j < |a| && a[j] == yb;
    assert kb <= ka;
    assert Bucket(a, key, ka)[0] == a[0];
    assert Bucket(b, key, ka)[0] == b[0];
  }

  /** Removing an equal head from both sides keeps the buckets equal. */
  lemma SameBucketsTail<T>(a: seq<T>, b: seq<T>, key: T -> int)
    requires a != [] && b != [] && a[0] == b[0] && SameBuckets(a, b, key)
    ensures SameBuckets(a[1..], b[1..], key)
  {
    forall k ensures Bucket(a[1..], key, k) == Bucket(b[1..], key, k) {
      var h := if key(a[0]) == k then [a[0]] else [];
      assert Bucket(a, key, k) == Bucket(b, key, k);
      assert Bucket(a, key, k) == h + Bucket(a[1..], key, k);
      assert Bucket(b, key, k) == h + Bucket(b[1..], key, k);
      assert Bucket(a[1..], key, k) == Bucket(a, key, k)[|h|..];
    }
  }

  /** A sorted sequence is determined by its buckets. */
  lemma {:induction false} SortedSameBucketsUnique<T>(a: seq<T>, b: seq<T>, key: T -> int)
    requires SortedDesc(a, key) && SortedDesc(b, key) && SameBuckets(a, b, key)
    ensures a == b
    decreases |a|
  {
    if a == [] {
      NoBucketsEmpty(b, key);
    } else if b == [] {
      NoBucketsEmpty(a, key);
    } else {
      SortedSameBucketsHead(a, b, key);
      SameBucketsTail(a, b, key);
      SortedSameBucketsUnique(a[1..], b[1..], key);
      assert a == [a[0]] + a[1..] && b == [b[0]] + b[1..];
    }
  }

  /** Equal buckets mean equal multisets: a stable sort is a permutation. */
  lemma SameBucketsPermutation<T>(s: seq<T>, t: seq<T>, key: T -> int)
    requires SameBuckets(s, t, key)
    ensures multiset(s) == multiset(t)
  {
    forall x ensures multiset(s)[x] == multiset(t)[x] {
      BucketCount(s, key, x);
      BucketCount(t, key, x);
      assert Bucket(s, key, key(x)) == Bucket(t, key, key(x));
    }
  }

  lemma {:induction false} BucketCount<T>(s: seq<T>, key: T -> int, x: T)
    ensures multiset(Bucket(s, key, key(x)))[x] == multiset(s)[x]
  {
    if s != [] {
      BucketCount(s[1..], key, x);
      assert s == [s[0]] + s[1..];
    }
  }

  /** Any sorted rearrangement that keeps every bucket is the reference sort. */
  lemma SortedSameBucketsIsSort<T>(s: seq<T>, t: seq<T>, key: T -> int)
    requires SortedDesc(s, key) && SameBuckets(s, t, key)
    ensures s == StableSortDesc(t, key)
  {
    StableSortDescCorrect(t, key);
    SortedSameBucketsUnique(s, StableSortDesc(t, key), key);
  }

  /**
   * Stable in-place insertion sort by adjacent swaps, highest key first.
   * Only neighbours with different keys are ever swapped, which is what
   * keeps equal keys in their input order.
   */
  method SortInPlace<T>(a: array<T>, key: T -> int)
    modifies a
    ensures a[..] == StableSortDesc(old(a[..]), key)
  {
    var i := 0;
    while i < a.Length
      invariant 0 <= i <= a.Length
      invariant SortedDesc(a[..i], key)
      invariant SameBuckets(a[..], old(a[..]), key)
    {
      SinkInto(a, i, key);
      i := i + 1;
    }
    assert a[..a.Length] == a[..];
    SortedSameBucketsIsSort(a[..], old(a[..]), key);
  }

  /**
   * One pass of the insertion sort: `a[i]` moves left, one swap at a time,
   * past every neighbour with a lower key, so that `a[..i + 1]` is sorted.
   */
  method SinkInto<T>(a: array<T>, i: int, key: T -> int)
    requires 0 <= i < a.Length && SortedDesc(a[..i], key)
    modifies a
    ensures SortedDesc(a[..i + 1], key)
    ensures SameBuckets(a[..], old(a[..]), key)
    ensures a[i + 1..] == old(a[i + 1..])
    ensures multiset(a[..i + 1]) == multiset(old(a[..i + 1]))
  {
    var j := i;
    SinkStart(a[..], i, key);
    while j > 0 && key(a[j - 1]) < key(a[j])
      invariant 0 <= j <= i
      invariant SortedExcept(a[..], i, j, key) && AboveAfter(a[..], i, j, key)
      invariant SameBuckets(a[..], old(a[..]), key)
      invariant a[i + 1..] == old(a[i + 1..])
    {
      ghost var swapped := a[..][j - 1 := a[j]][j := a[j - 1]];
      SinkStep(a[..], i, j, key);
      SwapKeepsBuckets(a[..], j, old(a[..]), key);
      a[j - 1], a[j] := a[j], a[j - 1];
      assert a[..] == swapped;
      j := j - 1;
    }
    SinkDone(a[..], i, j, key);
    PrefixPermutes(a[..], old(a[..]), i + 1, key);
  }

  /** Equal buckets and an equal suffix from `n` leave the prefixes before `n` with equal contents. */
  lemma PrefixPermutes<T>(s: seq<T>, t: seq<T>, n: int, key: T -> int)
    requires 0 <= n <= |s| == |t| && SameBuckets(s, t, key) && s[n..] == t[n..]
    ensures multiset(s[..n]) == multiset(t[..n])
  {
    SameBucketsPermutation(s, t, key);
    assert s == s[..n] + s[n..] && t == t[..n] + t[n..];
    forall x ensures multiset(s[..n])[x] == multiset(t[..n])[x] {
      assert multiset(s)[x] == multiset(s[..n])[x] + multiset(s[n..])[x];
      assert multiset(t)[x] == multiset(t[..n])[x] + multiset(t[n..])[x];
    }
  }

  /** `s[..n + 1]` is non-increasing once position `j` is left out. */
  ghost predicate SortedExcept<T>(s: seq<T>, n: int, j: int, key: T -> int)
    requires n < |s|
  {
    forall p, q :: 0 <= p < q <= n && p != j && q != j ==> key(s[p]) >= key(s[q])
  }

  /** The element at `j` outranks every element after it up to `n`. */
  ghost predicate AboveAfter<T>(s: seq<T>, n: int, j: int, key: T -> int)
    requires 0 <= j <= n < |s|
  {
    forall q :: j < q <= n ==> key(s[j]) > key(s[q])
  }

  lemma SinkStart<T>(s: seq<T>, i: int, key: T -> int)
    requires 0 <= i < |s| && SortedDesc(s[..i], key)
    ensures SortedExcept(s, i, i, key) && AboveAfter(s, i, i, key)
  {
    forall p, q | 0 <= p < q <= i && p != i && q != i ensures key(s[p]) >= key(s[q]) {
      assert s[p] == s[..i][p] && s[q] == s[..i][q];
    }
  }

  /** Swapping `s[j]` with a lower-keyed left neighbour moves the gap one place left. */
  lemma SinkStep<T>(s: seq<T>, i: int, j: int, key: T -> int)
    requires 0 < j <= i < |s| && key(s[j - 1]) < key(s[j])
    requires SortedExcept(s, i, j, key) && AboveAfter(s, i, j, key)
    ensures SortedExcept(s[j - 1 := s[j]][j := s[j - 1]], i, j - 1, key)
    ensures AboveAfter(s[j - 1 := s[j]][j := s[j - 1]], i, j - 1, key)
    ensures key(s[j - 1]) != key(s[j])
  {
    var t := s[j - 1 := s[j]][j := s[j - 1]];
    forall p, q | 0 <= p < q <= i && p != j - 1 && q != j - 1 ensures key(t[p]) >= key(t[q]) {
      if q == j {
        if p < j - 1 {
          assert key(s[p]) >= key(s[j - 1]);
        }
      } else if p == j {
        assert key(s[j]) > key(s[q]);
      }
    }
  }

  /** When the element stops, the whole prefix up to `i` is sorted. */
  lemma SinkDone<T>(s: seq<T>, i: int, j: int, key: T -> int)
    requires 0 <= j <= i < |s| && (j == 0 || key(s[j - 1]) >= key(s[j]))
    requires SortedExcept(s, i, j, key) && AboveAfter(s, i, j, key)
    ensures SortedDesc(s[..i + 1], key)
  {
    var t := s[..i + 1];
    forall p, q | 0 <= p < q < |t| ensures key(t[p]) >= key(t[q]) {
      assert t[p] == s[p] && t[q] == s[q];
      if p != j && q != j {
      } else if p == j {
      } else if p < j - 1 {
        assert key(s[p]) >= key(s[j - 1]);
      }
    }
  }

  /** A swap of neighbours with different keys keeps the buckets `s` shares with `orig`. */
  lemma SwapKeepsBuckets<T>(s: seq<T>, j: int, orig: seq<T>, key: T -> int)
    requires 0 < j < |s| && key(s[j - 1]) != key(s[j])
    requires SameBuckets(s, orig, key)
    ensures SameBuckets(s[j - 1 := s[j]][j := s[j - 1]], orig, key)
  {
    var t := s[j - 1 := s[j]][j := s[j - 1]];
    SwapAdjacent(s, j, key);
    forall k ensures Bucket(t, key, k) == Bucket(orig, key, k) {
      assert Bucket(t, key, k) == Bucket(s, key, k);
    }
  }
}
