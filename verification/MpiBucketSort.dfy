/** The MPI baseline's local bucket sort: count, point, and scatter every key into its bucket. */
module MpiBucketSort {
  import opened Histograms

  /** The keys of the first n buckets, bucket by bucket, each bucket in its original order. */
  function BucketSorted(keys: seq<nat>, width: nat, n: nat): (r: seq<nat>)
    requires width > 0
  {
    if n == 0 then [] else BucketSorted(keys, width, n - 1) + BucketKeys(keys, width, n - 1)
  }

  function BucketStart(keys: seq<nat>, width: nat, b: nat): nat
    requires width > 0
  {
    |BucketSorted(keys, width, b)|
  }

  lemma {:induction false} StartsGrow(keys: seq<nat>, width: nat, b: nat, b': nat)
    requires width > 0 && b <= b'
    ensures BucketStart(keys, width, b) <= BucketStart(keys, width, b')
    decreases b'
  {
    if b < b' {
      StartsGrow(keys, width, b, b' - 1);
    }
  }

  lemma {:induction false} LowBucketsFirst(keys: seq<nat>, width: nat, b: nat, b': nat)
    requires width > 0 && b <= b'
    ensures BucketSorted(keys, width, b) <= BucketSorted(keys, width, b')
    decreases b'
  {
    if b < b' {
      LowBucketsFirst(keys, width, b, b' - 1);
    }
  }

  lemma TailOfJoin(front: seq<nat>, part: seq<nat>, at: nat, k: nat)
    requires at <= |front|
    ensures multiset((front + part)[at..])[k] == multiset(front[at..])[k] + multiset(part)[k]
  {
    assert (front + part)[at..] == front[at..] + part;
  }

  /** A run of buckets holds exactly the keys of these buckets. */
  lemma {:induction false} SliceMultiplicity(keys: seq<nat>, width: nat, lo: nat, hi: nat, k: nat)
    requires width > 0 && lo <= hi
    ensures BucketStart(keys, width, lo) <= BucketStart(keys, width, hi)
    ensures multiset(BucketSorted(keys, width, hi)[BucketStart(keys, width, lo)..])[k]
         == if lo <= BucketOf(k, width) < hi then multiset(keys)[k] else 0
    decreases hi
  {
    if lo < hi {
      SliceMultiplicity(keys, width, lo, hi - 1, k);
      BucketKeysMultiplicity(keys, width, hi - 1, k);
      TailOfJoin(BucketSorted(keys, width, hi - 1), BucketKeys(keys, width, hi - 1), BucketStart(keys, width, lo), k);
    }
  }

  /** The bucket sort is a permutation of the keys. */
  lemma BucketSortIsPermutation(keys: seq<nat>, width: nat, numBuckets: nat)
    requires width > 0 && forall i :: 0 <= i < |keys| ==> BucketOf(keys[i], width) < numBuckets
    ensures multiset(BucketSorted(keys, width, numBuckets)) == multiset(keys)
    ensures BucketStart(keys, width, numBuckets) == |keys|
  {
    var sorted := BucketSorted(keys, width, numBuckets);
    forall k ensures multiset(sorted)[k] == multiset(keys)[k] {
      SliceMultiplicity(keys, width, 0, numBuckets, k);
      assert sorted[0..] == sorted;
      if k in keys {
        assert BucketOf(k, width) < numBuckets;
      }
    }
    assert multiset(sorted) == multiset(keys);
    assert |multiset(sorted)| == |multiset(keys)|;
  }

  lemma BucketEnds(b: nat, width: nat)
    requires b > 0
    ensures 0 <= (b - 1) * width <= b * width == (b - 1 + 1) * width
  {
  }

  /** A bucket begins behind all keys of lower buckets. */
  lemma {:induction false} StartCountsLowerKeys(keys: seq<nat>, width: nat, b: nat)
    requires width > 0
    ensures BucketStart(keys, width, b) == CountRange(multiset(keys), 0, b * width)
  {
    if b > 0 {
      StartCountsLowerKeys(keys, width, b - 1);
      BucketKeysCounts(keys, width, b - 1);
      BucketEnds(b, width);
      CountRangeSplit(multiset(keys), 0, (b - 1) * width, b * width);
    }
  }

  /** In its bucket a key stands behind the keys of the bucket that precede it in the key array. */
  lemma {:induction false} PositionInBucket(keys: seq<nat>, width: nat, b: nat, i: nat)
    requires width > 0 && i < |keys| && BucketOf(keys[i], width) == b
    ensures |BucketKeys(keys[..i], width, b)| < |BucketKeys(keys, width, b)|
    ensures BucketKeys(keys, width, b)[|BucketKeys(keys[..i], width, b)|] == keys[i]
  {
    var front := keys[..|keys| - 1];
    if i < |front| {
      PositionInBucket(front, width, b, i);
      assert front[..i] == keys[..i];
    }
  }

  lemma PartOfSorted(keys: seq<nat>, width: nat, b: nat, n: nat, j: nat)
    requires width > 0 && b < n && j < |BucketKeys(keys, width, b)|
    ensures BucketStart(keys, width, b) + j < |BucketSorted(keys, width, n)|
    ensures BucketSorted(keys, width, n)[BucketStart(keys, width, b) + j] == BucketKeys(keys, width, b)[j]
  {
    LowBucketsFirst(keys, width, b + 1, n);
  }

  lemma KeyPosition(keys: seq<nat>, width: nat, numBuckets: nat, i: nat, b: nat)
    requires width > 0 && i < |keys| && BucketOf(keys[i], width) == b < numBuckets
    ensures var slot := BucketStart(keys, width, b) + |BucketKeys(keys[..i], width, b)|;
            slot < |BucketSorted(keys, width, numBuckets)| && BucketSorted(keys, width, numBuckets)[slot] == keys[i]
  {
    PositionInBucket(keys, width, b, i);
    PartOfSorted(keys, width, b, numBuckets, |BucketKeys(keys[..i], width, b)|);
  }

  /** The bucket sort is stable: the slot of key i counts the keys of lower buckets and the earlier ones of its own. */
  lemma KeyLandsAt(keys: seq<nat>, width: nat, numBuckets: nat, i: nat, lo: int, hi: int)
    requires width > 0 && i < |keys| && BucketOf(keys[i], width) < numBuckets
    requires lo == BucketOf(keys[i], width) * width && hi == (BucketOf(keys[i], width) + 1) * width
    ensures var slot := CountRange(multiset(keys), 0, lo) + CountRange(multiset(keys[..i]), lo, hi);
            slot < |BucketSorted(keys, width, numBuckets)| && BucketSorted(keys, width, numBuckets)[slot] == keys[i]
  {
    var b := BucketOf(keys[i], width);
    StartCountsLowerKeys(keys, width, b);
    BucketKeysCounts(keys[..i], width, b);
    KeyPosition(keys, width, numBuckets, i, b);
  }

  // ---------- the three loops ----------

  /** Afterwards slot b counts the keys of bucket b; the slots behind the buckets keep what they held. */
  method CountBuckets(keys: seq<nat>, width: nat, numBuckets: nat, bucketSize: array<int>)
    requires width > 0 && numBuckets <= bucketSize.Length
    requires forall i :: 0 <= i < |keys| ==> BucketOf(keys[i], width) < numBuckets
    requires forall b :: 0 <= b < numBuckets ==> bucketSize[b] == 0
    modifies bucketSize
    ensures forall b :: 0 <= b < numBuckets ==> bucketSize[b] == |BucketKeys(keys, width, b)|
    ensures forall b :: numBuckets <= b < bucketSize.Length ==> bucketSize[b] == old(bucketSize[b])
  {
    for i := 0 to |keys|
      invariant forall b :: 0 <= b < numBuckets ==> bucketSize[b] == |BucketKeys(keys[..i], width, b)|
      invariant forall b :: numBuckets <= b < bucketSize.Length ==> bucketSize[b] == old(bucketSize[b])
    {
      forall b | 0 <= b < numBuckets
        ensures |BucketKeys(keys[..i + 1], width, b)|
             == |BucketKeys(keys[..i], width, b)| + if BucketOf(keys[i], width) == b then 1 else 0
      {
        BucketKeysStep(keys, width, b, i);
      }
      bucketSize[BucketOf(keys[i], width)] := bucketSize[BucketOf(keys[i], width)] + 1;
    }
    assert keys[..|keys|] == keys;
  }

  /** Every pointer is the position at which its bucket begins when the buckets follow one another. */
  method BucketPointers(bucketSize: array<int>, bucketPtrs: array<int>, numBuckets: nat,
                        ghost keys: seq<nat>, ghost width: nat)
    requires 0 < numBuckets <= bucketSize.Length && numBuckets <= bucketPtrs.Length
    requires bucketSize != bucketPtrs && width > 0
    requires forall b :: 0 <= b < numBuckets ==> bucketSize[b] == |BucketKeys(keys, width, b)|
    modifies bucketPtrs
    ensures forall b :: 0 <= b < numBuckets ==> bucketPtrs[b] == BucketStart(keys, width, b)
  {
    bucketPtrs[0] := 0;
    for i := 1 to numBuckets
      invariant forall b :: 0 <= b < i ==> bucketPtrs[b] == BucketStart(keys, width, b)
    {
      bucketPtrs[i] := bucketPtrs[i - 1] + bucketSize[i - 1];
    }
  }

  /** Bucket b's part of the output starts with its keys among the first i. */
  ghost predicate PartFilled(out: seq<int>, keys: seq<nat>, width: nat, i: nat, b: nat)
    requires width > 0 && i <= |keys|
  {
    var start, part := BucketStart(keys, width, b), BucketKeys(keys[..i], width, b);
    start + |part| <= |out| && out[start..start + |part|] == part
  }

  /** The slot the next key of bucket c goes to. */
  function NextSlot(keys: seq<nat>, width: nat, i: nat, c: nat): nat
    requires width > 0 && i <= |keys|
  {
    BucketStart(keys, width, c) + |BucketKeys(keys[..i], width, c)|
  }

  /** The next slot of the next key's bucket is inside the bucket's part. */
  lemma NextSlotInPart(keys: seq<nat>, width: nat, i: nat)
    requires width > 0 && i < |keys|
    ensures var c := BucketOf(keys[i], width);
            BucketStart(keys, width, c) <= NextSlot(keys, width, i, c) < BucketStart(keys, width, c + 1)
  {
    var c := BucketOf(keys[i], width);
    BucketKeysStep(keys, width, c, i);
    BucketKeysPrefix(keys, width, c, i + 1);
  }

  lemma WriteOutside(out: seq<int>, lo: nat, hi: nat, slot: nat, x: int)
    requires lo <= hi <= |out| && slot < |out| && (slot < lo || hi <= slot)
    ensures out[slot := x][lo..hi] == out[lo..hi]
  {
  }

  lemma WriteAtEnd(out: seq<int>, lo: nat, slot: nat, x: int)
    requires lo <= slot < |out|
    ensures out[slot := x][lo..slot + 1] == out[lo..slot] + [x]
  {
  }

  lemma PartFits(keys: seq<nat>, width: nat, i: nat, b: nat)
    requires width > 0 && i <= |keys|
    ensures BucketStart(keys, width, b) <= NextSlot(keys, width, i, b) <= BucketStart(keys, width, b + 1)
  {
    BucketKeysPrefix(keys, width, b, i);
  }

  /** The next key's slot lies outside the filled part of every other bucket. */
  lemma PartsApart(keys: seq<nat>, width: nat, i: nat, b: nat)
    requires width > 0 && i < |keys| && b != BucketOf(keys[i], width)
    ensures var slot := NextSlot(keys, width, i, BucketOf(keys[i], width));
            slot < BucketStart(keys, width, b) || NextSlot(keys, width, i, b) <= slot
  {
    var c := BucketOf(keys[i], width);
    var slot, end := NextSlot(keys, width, i, c), NextSlot(keys, width, i, b);
    NextSlotInPart(keys, width, i);
    PartFits(keys, width, i, b);
    if b < c {
      StartsGrow(keys, width, b + 1, c);
      assert end <= slot;
    } else {
      StartsGrow(keys, width, c + 1, b);
      assert slot < BucketStart(keys, width, b);
    }
  }

  /** A write at a bucket's pointer extends that bucket's part and leaves the other parts alone. */
  lemma FillOneMore(out: seq<int>, keys: seq<nat>, width: nat, i: nat, b: nat)
    requires width > 0 && i < |keys| && PartFilled(out, keys, width, i, b)
    requires NextSlot(keys, width, i, BucketOf(keys[i], width)) < |out|
    ensures PartFilled(out[NextSlot(keys, width, i, BucketOf(keys[i], width)) := keys[i]], keys, width, i + 1, b)
  {
    var slot, start := NextSlot(keys, width, i, BucketOf(keys[i], width)), BucketStart(keys, width, b);
    BucketKeysStep(keys, width, b, i);
    if b == BucketOf(keys[i], width) {
      WriteAtEnd(out, start, slot, keys[i]);
    } else {
      PartsApart(keys, width, i, b);
      WriteOutside(out, start, NextSlot(keys, width, i, b), slot, keys[i]);
    }
  }

  lemma NextSlotFits(keys: seq<nat>, width: nat, numBuckets: nat, i: nat)
    requires width > 0 && i < |keys| && BucketOf(keys[i], width) < numBuckets
    ensures NextSlot(keys, width, i, BucketOf(keys[i], width)) < BucketStart(keys, width, numBuckets)
  {
    NextSlotInPart(keys, width, i);
    StartsGrow(keys, width, BucketOf(keys[i], width) + 1, numBuckets);
  }

  /** Bucket b's pointer and part after i keys. */
  ghost predicate Placed(out: seq<int>, ptrs: seq<int>, keys: seq<nat>, width: nat, i: nat, b: nat)
    requires width > 0 && i <= |keys| && b < |ptrs|
  {
    ptrs[b] == NextSlot(keys, width, i, b) && PartFilled(out, keys, width, i, b)
  }

  ghost predicate Scattered(out: seq<int>, ptrs: seq<int>, keys: seq<nat>, width: nat, numBuckets: nat, i: nat)
    requires width > 0 && i <= |keys| && numBuckets <= |ptrs|
  {
    forall b :: 0 <= b < numBuckets ==> Placed(out, ptrs, keys, width, i, b)
  }

  lemma ScatterStep(out: seq<int>, ptrs: seq<int>, keys: seq<nat>, width: nat, numBuckets: nat, i: nat)
    requires width > 0 && i < |keys| && numBuckets <= |ptrs| && BucketOf(keys[i], width) < numBuckets
    requires Scattered(out, ptrs, keys, width, numBuckets, i) && BucketStart(keys, width, numBuckets) <= |out|
    ensures var c := BucketOf(keys[i], width);
            && 0 <= ptrs[c] < |out|
            && Scattered(out[ptrs[c] := keys[i]], ptrs[c := ptrs[c] + 1], keys, width, numBuckets, i + 1)
  {
    var c := BucketOf(keys[i], width);
    NextSlotFits(keys, width, numBuckets, i);
    assert Placed(out, ptrs, keys, width, i, c);
    var out', ptrs', next := out[ptrs[c] := keys[i]], ptrs[c := ptrs[c] + 1], i + 1;
    forall b | 0 <= b < numBuckets ensures Placed(out', ptrs', keys, width, next, b) {
      assert Placed(out, ptrs, keys, width, i, b);
      FillOneMore(out, keys, width, i, b);
      BucketKeysStep(keys, width, b, i);
    }
  }

  /** Full parts, one after the other, are the sorted keys. */
  lemma {:induction false} PartsTogether(out: seq<int>, keys: seq<nat>, width: nat, n: nat)
    requires width > 0 && forall b :: 0 <= b < n ==> PartFilled(out, keys, width, |keys|, b)
    ensures BucketStart(keys, width, n) <= |out| && out[..BucketStart(keys, width, n)] == BucketSorted(keys, width, n)
  {
    if n > 0 {
      PartsTogether(out, keys, width, n - 1);
      assert PartFilled(out, keys, width, |keys|, n - 1);
      assert keys[..|keys|] == keys;
      var start, end := BucketStart(keys, width, n - 1), BucketStart(keys, width, n);
      assert out[..end] == out[..start] + out[start..end];
    }
  }

  /** The buckets end up side by side, each with its keys in their original order. */
  method ScatterIntoBuckets(keys: seq<nat>, width: nat, numBuckets: nat, bucketPtrs: array<int>, keyBuff1: array<int>)
    requires width > 0 && numBuckets <= bucketPtrs.Length && |keys| <= keyBuff1.Length && bucketPtrs != keyBuff1
    requires forall i :: 0 <= i < |keys| ==> BucketOf(keys[i], width) < numBuckets
    requires forall b :: 0 <= b < numBuckets ==> bucketPtrs[b] == BucketStart(keys, width, b)
    modifies bucketPtrs, keyBuff1
    ensures keyBuff1[..|keys|] == BucketSorted(keys, width, numBuckets)
  {
    BucketSortIsPermutation(keys, width, numBuckets);
    forall b | 0 <= b < numBuckets ensures Placed(keyBuff1[..], bucketPtrs[..], keys, width, 0, b) {
      StartsGrow(keys, width, b, numBuckets);
    }
    for i := 0 to |keys|
      invariant Scattered(keyBuff1[..], bucketPtrs[..], keys, width, numBuckets, i)
    {
      ScatterStep(keyBuff1[..], bucketPtrs[..], keys, width, numBuckets, i);
      var key := keys[i];
      var bucket := BucketOf(key, width);
      ghost var out, ptrs := keyBuff1[..], bucketPtrs[..];
      keyBuff1[bucketPtrs[bucket]] := key;
      bucketPtrs[bucket] := bucketPtrs[bucket] + 1;
      assert keyBuff1[..] == out[ptrs[bucket] := key] && bucketPtrs[..] == ptrs[bucket := ptrs[bucket] + 1];
    }
    forall b | 0 <= b < numBuckets ensures PartFilled(keyBuff1[..], keys, width, |keys|, b) {
      assert Placed(keyBuff1[..], bucketPtrs[..], keys, width, |keys|, b);
    }
    PartsTogether(keyBuff1[..], keys, width, numBuckets);
  }

  /** The local part of rank(): after it the send buffer holds the keys bucket by bucket. */
  method SortIntoBuckets(keys: seq<nat>, width: nat, numBuckets: nat, bucketSize: array<int>,
                         bucketPtrs: array<int>, keyBuff1: array<int>)
    requires width > 0 && 0 < numBuckets <= bucketSize.Length && numBuckets <= bucketPtrs.Length
    requires |keys| <= keyBuff1.Length
    requires bucketSize != bucketPtrs && bucketSize != keyBuff1 && bucketPtrs != keyBuff1
    requires forall i :: 0 <= i < |keys| ==> BucketOf(keys[i], width) < numBuckets
    requires forall b :: 0 <= b < numBuckets ==> bucketSize[b] == 0
    modifies bucketSize, bucketPtrs, keyBuff1
    ensures forall b :: 0 <= b < numBuckets ==>
              bucketSize[b] == CountRange(multiset(keys), b * width, (b + 1) * width)
    ensures forall b :: numBuckets <= b < bucketSize.Length ==> bucketSize[b] == old(bucketSize[b])
    ensures keyBuff1[..|keys|] == BucketSorted(keys, width, numBuckets)
  {
    CountBuckets(keys, width, numBuckets, bucketSize);
    BucketPointers(bucketSize, bucketPtrs, numBuckets, keys, width);
    ScatterIntoBuckets(keys, width, numBuckets, bucketPtrs, keyBuff1);
    forall b | 0 <= b < numBuckets
      ensures bucketSize[b] == CountRange(multiset(keys), b * width, (b + 1) * width)
    {
      BucketKeysCounts(keys, width, b);
    }
  }
}
