/** Counting keys by value: ranges of a histogram, its expansion in key order, and bucket counts. */
module Histograms {
  import opened Collections
  import opened Powers

  /** The number of keys k with lo <= k < hi. */
  function CountRange(h: multiset<int>, lo: int, hi: int): (n: nat)
    decreases hi - lo
  {
    if lo >= hi then 0 else CountRange(h, lo, hi - 1) + h[hi - 1]
  }

  lemma {:induction false} CountRangeSplit(h: multiset<int>, lo: int, mid: int, hi: int)
    requires lo <= mid <= hi
    ensures CountRange(h, lo, hi) == CountRange(h, lo, mid) + CountRange(h, mid, hi)
    decreases hi - mid
  {
    if mid < hi {
      CountRangeSplit(h, lo, mid, hi - 1);
    }
  }

  lemma {:induction false} CountRangeAgree(h: multiset<int>, h': multiset<int>, lo: int, hi: int)
    requires forall k :: lo <= k < hi ==> h[k] == h'[k]
    ensures CountRange(h, lo, hi) == CountRange(h', lo, hi)
    decreases hi - lo
  {
    if lo < hi {
      CountRangeAgree(h, h', lo, hi - 1);
    }
  }

  lemma {:induction false} CountRangeEmpty(h: multiset<int>, lo: int, hi: int)
    requires forall k :: lo <= k < hi ==> h[k] == 0
    ensures CountRange(h, lo, hi) == 0
    decreases hi - lo
  {
    if lo < hi {
      CountRangeEmpty(h, lo, hi - 1);
    }
  }

  lemma {:induction false} CountRangeZero(h: multiset<int>, lo: int, hi: int, k: int)
    requires CountRange(h, lo, hi) == 0 && lo <= k < hi
    ensures h[k] == 0
    decreases hi - lo
  {
    if k < hi - 1 {
      CountRangeZero(h, lo, hi - 1, k);
    }
  }

  lemma {:induction false} CountRangeAdd(h: multiset<int>, h': multiset<int>, lo: int, hi: int)
    ensures CountRange(h + h', lo, hi) == CountRange(h, lo, hi) + CountRange(h', lo, hi)
    decreases hi - lo
  {
    if lo < hi {
      CountRangeAdd(h, h', lo, hi - 1);
    }
  }

  lemma {:induction false} CountOneKey(k: int, lo: int, hi: int)
    ensures CountRange(multiset{k}, lo, hi) == if lo <= k < hi then 1 else 0
    decreases hi - lo
  {
    if lo < hi {
      CountOneKey(k, lo, hi - 1);
    }
  }

  /** Slot i of the table counts the keys minKey + i, for every key up to maxKey. */
  ghost predicate IsFrequencyTable(table: seq<int>, h: multiset<int>, minKey: int, maxKey: int)
  {
    && maxKey - minKey + 1 <= |table|
    && forall i :: 0 <= i < maxKey - minKey + 1 ==> table[i] == h[minKey + i]
  }

  /** The sums of such a table count the keys up to and including a key. */
  lemma {:induction false} PrefixSumCounts(table: seq<int>, h: multiset<int>, minKey: int, maxKey: int, n: nat)
    requires IsFrequencyTable(table, h, minKey, maxKey) && n <= |table| && n <= maxKey - minKey + 1
    ensures Prefix(table, n) == CountRange(h, minKey, minKey + n)
  {
    if n > 0 {
      PrefixSumCounts(table, h, minKey, maxKey, n - 1);
      SumStep(table, n - 1);
    }
  }

  // ---------- expansion ----------

  function Repeat(k: int, n: nat): (r: seq<int>)
    ensures |r| == n && multiset(r)[k] == n
    ensures forall i :: 0 <= i < n ==> r[i] == k
    ensures forall j :: j != k ==> multiset(r)[j] == 0
  {
    if n == 0 then [] else Repeat(k, n - 1) + [k]
  }

  /** The keys of a histogram between lo and hi, each as often as it was counted, in key order. */
  function Expand(h: multiset<int>, lo: int, hi: int): (keys: seq<int>)
    ensures |keys| == CountRange(h, lo, hi)
    decreases hi - lo
  {
    if lo >= hi then [] else Expand(h, lo, hi - 1) + Repeat(hi - 1, h[hi - 1])
  }

  ghost predicate Sorted(s: seq<int>)
  {
    forall i, j :: 0 <= i < j < |s| ==> s[i] <= s[j]
  }

  lemma LastApart(s: seq<int>)
    requires s != []
    ensures multiset(s) == multiset{s[|s| - 1]} + multiset(s[..|s| - 1])
  {
    assert s == s[..|s| - 1] + [s[|s| - 1]];
  }

  /** Sorted sequences of the same keys are the same. */
  lemma {:induction false} SortedIsUnique(a: seq<int>, b: seq<int>)
    requires Sorted(a) && Sorted(b) && multiset(a) == multiset(b)
    ensures a == b
  {
    assert |multiset(a)| == |a| && |multiset(b)| == |b|;
    if a != [] {
      var i, j := |a| - 1, |b| - 1;
      assert a[i] in multiset(b) && b[j] in multiset(a);
      assert a[i] == b[j];
      LastApart(a);
      LastApart(b);
      Cancel(multiset{a[i]}, multiset(a[..i]), multiset(b[..j]));
      SortedIsUnique(a[..i], b[..j]);
    }
  }

  lemma {:induction false} ExpandIsSorted(h: multiset<int>, lo: int, hi: int)
    ensures Sorted(Expand(h, lo, hi))
    ensures forall i :: 0 <= i < |Expand(h, lo, hi)| ==> lo <= Expand(h, lo, hi)[i] < hi
    decreases hi - lo
  {
    if lo < hi {
      ExpandIsSorted(h, lo, hi - 1);
    }
  }

  lemma {:induction false} ExpandCounts(h: multiset<int>, lo: int, hi: int, k: int)
    ensures multiset(Expand(h, lo, hi))[k] == if lo <= k < hi then h[k] else 0
    decreases hi - lo
  {
    if lo < hi {
      ExpandCounts(h, lo, hi - 1, k);
    }
  }

  /** Expanding all of a histogram's range is a permutation of its keys. */
  lemma ExpandIsPermutation(h: multiset<int>, lo: int, hi: int)
    requires forall k :: k in h ==> lo <= k < hi
    ensures multiset(Expand(h, lo, hi)) == h
    ensures |h| == CountRange(h, lo, hi)
  {
    forall k ensures multiset(Expand(h, lo, hi))[k] == h[k] {
      ExpandCounts(h, lo, hi, k);
    }
    assert |multiset(Expand(h, lo, hi))| == |Expand(h, lo, hi)|;
  }

  lemma {:induction false} ExpandSplit(h: multiset<int>, lo: int, mid: int, hi: int)
    requires lo <= mid <= hi
    ensures Expand(h, lo, hi) == Expand(h, lo, mid) + Expand(h, mid, hi)
    decreases hi - mid
  {
    if mid < hi {
      ExpandSplit(h, lo, mid, hi - 1);
      ConcatAssociative(Expand(h, lo, mid), Expand(h, mid, hi - 1), Repeat(hi - 1, h[hi - 1]));
    }
  }

  lemma {:induction false} ExpandAgree(h: multiset<int>, h': multiset<int>, lo: int, hi: int)
    requires forall k :: lo <= k < hi ==> h[k] == h'[k]
    ensures Expand(h, lo, hi) == Expand(h', lo, hi)
    decreases hi - lo
  {
    if lo < hi {
      ExpandAgree(h, h', lo, hi - 1);
    }
  }

  /** The block of a key in the expansion. */
  lemma {:induction false} ExpandAt(h: multiset<int>, lo: int, hi: int, k: int, i: nat)
    requires lo <= k < hi && CountRange(h, lo, k) <= i < CountRange(h, lo, k + 1)
    ensures CountRange(h, lo, k + 1) <= |Expand(h, lo, hi)|
    ensures Expand(h, lo, hi)[i] == k
    decreases hi - lo
  {
    var front, back := Expand(h, lo, hi - 1), Repeat(hi - 1, h[hi - 1]);
    assert Expand(h, lo, hi) == front + back;
    if k < hi - 1 {
      ExpandAt(h, lo, hi - 1, k, i);
      assert (front + back)[i] == front[i];
    } else {
      assert |front| == CountRange(h, lo, k) && |front + back| == CountRange(h, lo, k + 1);
      assert (front + back)[i] == back[i - |front|];
    }
  }

  /** Every slot of the expansion lies in the block of some key. */
  lemma {:induction false} BlockOf(h: multiset<int>, lo: int, hi: int, i: nat) returns (k: int)
    requires i < CountRange(h, lo, hi)
    ensures lo <= k < hi && CountRange(h, lo, k) <= i < CountRange(h, lo, k + 1)
    decreases hi - lo
  {
    if CountRange(h, lo, hi - 1) <= i {
      k := hi - 1;
    } else {
      k := BlockOf(h, lo, hi - 1, i);
    }
  }

  lemma BlocksInOrder(h: multiset<int>, lo: int, k: int, j: int)
    requires lo <= k <= j
    ensures CountRange(h, lo, k) <= CountRange(h, lo, j)
  {
    CountRangeSplit(h, lo, k, j);
  }

  // ---------- buckets ----------

  /** The bucket of a key is the key shifted right, for buckets of `width` consecutive keys. */
  function BucketOf(k: nat, width: nat): nat
    requires width > 0
  {
    k / width
  }

  lemma BucketBounds(k: nat, width: nat, b: nat)
    requires width > 0
    ensures BucketOf(k, width) == b <==> b * width <= k < (b + 1) * width
  {
    if b * width <= k < (b + 1) * width {
      ModUnique(k, b, k - b * width, width);
    }
  }

  /** The keys of a sequence that lie in bucket b, in their order. */
  function BucketKeys(keys: seq<nat>, width: nat, b: nat): (r: seq<nat>)
    requires width > 0
    ensures |r| <= |keys|
  {
    if keys == [] then []
    else if BucketOf(keys[|keys| - 1], width) == b
    then BucketKeys(keys[..|keys| - 1], width, b) + [keys[|keys| - 1]]
    else BucketKeys(keys[..|keys| - 1], width, b)
  }

  lemma {:induction false} BucketKeysCounts(keys: seq<nat>, width: nat, b: nat)
    requires width > 0
    ensures |BucketKeys(keys, width, b)| == CountRange(multiset(keys), b * width, (b + 1) * width)
  {
    if keys == [] {
      CountRangeEmpty(multiset(keys), b * width, (b + 1) * width);
    } else {
      var last := keys[|keys| - 1];
      BucketKeysCounts(keys[..|keys| - 1], width, b);
      assert keys == keys[..|keys| - 1] + [last];
      assert multiset(keys) == multiset(keys[..|keys| - 1]) + multiset{last as int};
      CountRangeAdd(multiset(keys[..|keys| - 1]), multiset{last as int}, b * width, (b + 1) * width);
      CountOneKey(last, b * width, (b + 1) * width);
      BucketBounds(last, width, b);
    }
  }

  lemma {:induction false} BucketKeysMultiplicity(keys: seq<nat>, width: nat, b: nat, k: nat)
    requires width > 0
    ensures multiset(BucketKeys(keys, width, b))[k] == if BucketOf(k, width) == b then multiset(keys)[k] else 0
  {
    if keys != [] {
      BucketKeysMultiplicity(keys[..|keys| - 1], width, b, k);
      assert keys == keys[..|keys| - 1] + [keys[|keys| - 1]];
    }
  }

  /** Looking at one more key. */
  lemma BucketKeysStep(keys: seq<nat>, width: nat, b: nat, i: nat)
    requires width > 0 && i < |keys|
    ensures BucketKeys(keys[..i + 1], width, b)
         == if BucketOf(keys[i], width) == b then BucketKeys(keys[..i], width, b) + [keys[i]]
            else BucketKeys(keys[..i], width, b)
  {
    assert keys[..i + 1][..i] == keys[..i];
  }

  lemma {:induction false} BucketKeysPrefix(keys: seq<nat>, width: nat, b: nat, i: nat)
    requires width > 0 && i <= |keys|
    ensures |BucketKeys(keys[..i], width, b)| <= |BucketKeys(keys, width, b)|
    decreases |keys| - i
  {
    if i < |keys| {
      BucketKeysStep(keys, width, b, i);
      BucketKeysPrefix(keys, width, b, i + 1);
    } else {
      assert keys[..i] == keys;
    }
  }
}
