/** The MPI baseline's ranking of the received keys and its in-place counting-sort scatter. */
module MpiRanking {
  import opened Histograms

  /** The work array holds, for every key, the number of keys up to and including it. */
  ghost predicate Cumulative(work: seq<int>, keys: multiset<int>, minKey: int, range: nat)
  {
    range <= |work| && forall i :: 0 <= i < range ==> work[i] == CountRange(keys, minKey, minKey + i + 1)
  }

  /** Whatever the work array held, afterwards it counts every key of the interval. */
  method CountKeys(keyBuff2: seq<int>, minKey: int, maxKey: int, work: array<int>)
    requires minKey <= maxKey + 1 && maxKey - minKey + 1 <= work.Length
    requires forall k :: k in keyBuff2 ==> minKey <= k <= maxKey
    modifies work
    ensures IsFrequencyTable(work[..], multiset(keyBuff2), minKey, maxKey)
  {
    var range := maxKey - minKey + 1;
    for i := 0 to range
      invariant forall j :: 0 <= j < i ==> work[j] == 0
    {
      work[i] := 0;
    }
    for i := 0 to |keyBuff2|
      invariant IsFrequencyTable(work[..], multiset(keyBuff2[..i]), minKey, maxKey)
    {
      assert keyBuff2[i] in keyBuff2 && keyBuff2[..i + 1] == keyBuff2[..i] + [keyBuff2[i]];
      work[keyBuff2[i] - minKey] := work[keyBuff2[i] - minKey] + 1;
    }
    assert keyBuff2[..|keyBuff2|] == keyBuff2;
  }

  /** Turns the counts in place into running sums over the interval. */
  method AccumulatePopulation(minKey: int, maxKey: int, work: array<int>, ghost keys: multiset<int>)
    requires minKey <= maxKey + 1 && IsFrequencyTable(work[..], keys, minKey, maxKey)
    modifies work
    ensures Cumulative(work[..], keys, minKey, maxKey - minKey + 1)
  {
    var i := minKey;
    while i < maxKey
      invariant minKey <= i && (i <= maxKey || minKey == maxKey + 1)
      invariant forall j :: 0 <= j <= i - minKey && j < work.Length && minKey + j <= maxKey ==>
                  work[j] == CountRange(keys, minKey, minKey + j + 1)
      invariant forall j :: i - minKey < j <= maxKey - minKey ==> work[j] == keys[minKey + j]
    {
      work[i + 1 - minKey] := work[i + 1 - minKey] + work[i - minKey];
      i := i + 1;
    }
  }

  ghost predicate FilledBlock(out: seq<int>, ptr: int, keys: multiset<int>, seen: multiset<int>, minKey: int, k: int)
    requires minKey <= k
  {
    && ptr == CountRange(keys, minKey, k + 1) - seen[k]
    && 0 <= ptr && CountRange(keys, minKey, k + 1) <= |out|
    && forall slot :: ptr <= slot < CountRange(keys, minKey, k + 1) ==> out[slot] == k
  }

  /** The slots that the keys seen so far have filled: the upper end of every key's block. */
  ghost predicate Filled(out: seq<int>, ptrs: seq<int>, keys: multiset<int>, seen: multiset<int>,
                         minKey: int, range: nat)
  {
    && range <= |ptrs| && CountRange(keys, minKey, minKey + range) <= |out|
    && (forall i :: 0 <= i < range ==> FilledBlock(out, ptrs[i], keys, seen, minKey, minKey + i))
  }

  /** The slot below a key's pointer is the last free one of its block. */
  lemma NextSlotFree(ptr: int, keys: multiset<int>, seen: multiset<int>, minKey: int, k: int)
    requires minKey <= k && seen[k] < keys[k] && ptr == CountRange(keys, minKey, k + 1) - seen[k]
    ensures CountRange(keys, minKey, k) <= ptr - 1 < CountRange(keys, minKey, k + 1)
  {
  }

  /** A write into another key's block leaves a block alone. */
  lemma BlockKept(out: seq<int>, ptr: int, keys: multiset<int>, seen: multiset<int>, minKey: int, j: int,
                  slot: nat, k: int)
    requires minKey <= j && minKey <= k && j != k && seen <= keys
    requires FilledBlock(out, ptr, keys, seen, minKey, j)
    requires CountRange(keys, minKey, k) <= slot < CountRange(keys, minKey, k + 1) <= |out|
    ensures FilledBlock(out[slot := k], ptr, keys, seen + multiset{k}, minKey, j)
  {
    if j < k {
      BlocksInOrder(keys, minKey, j + 1, k);
    } else {
      BlocksInOrder(keys, minKey, k + 1, j);
    }
  }

  lemma FillNext(out: seq<int>, ptrs: seq<int>, keys: multiset<int>, seen: multiset<int>,
                 minKey: int, range: nat, k: int)
    requires Filled(out, ptrs, keys, seen, minKey, range) && minKey <= k < minKey + range
    requires seen + multiset{k} <= keys
    ensures var slot := ptrs[k - minKey] - 1;
            && CountRange(keys, minKey, k) <= slot < CountRange(keys, minKey, k + 1) <= |out|
            && Filled(out[slot := k], ptrs[k - minKey := slot], keys, seen + multiset{k}, minKey, range)
  {
    assert FilledBlock(out, ptrs[k - minKey], keys, seen, minKey, minKey + (k - minKey));
    assert (seen + multiset{k})[k] <= keys[k];
    NextSlotFree(ptrs[k - minKey], keys, seen, minKey, k);
    var slot := ptrs[k - minKey] - 1;
    var out', ptrs', seen' := out[slot := k], ptrs[k - minKey := slot], seen + multiset{k};
    forall i | 0 <= i < range ensures FilledBlock(out', ptrs'[i], keys, seen', minKey, minKey + i) {
      assert FilledBlock(out, ptrs[i], keys, seen, minKey, minKey + i);
      if minKey + i != k {
        BlockKept(out, ptrs[i], keys, seen, minKey, minKey + i, slot, k);
      }
    }
  }

  lemma FilledSlot(out: seq<int>, ptrs: seq<int>, keys: multiset<int>, minKey: int, range: nat, k: int, slot: nat)
    requires Filled(out, ptrs, keys, keys, minKey, range) && minKey <= k < minKey + range
    requires CountRange(keys, minKey, k) <= slot < CountRange(keys, minKey, k + 1)
    ensures CountRange(keys, minKey, k + 1) <= |out| && slot < |Expand(keys, minKey, minKey + range)|
    ensures out[slot] == Expand(keys, minKey, minKey + range)[slot]
  {
    assert FilledBlock(out, ptrs[k - minKey], keys, keys, minKey, minKey + (k - minKey));
    ExpandAt(keys, minKey, minKey + range, k, slot);
  }

  /** When every key has been placed, the output is the expansion of the histogram. */
  lemma AllFilled(out: seq<int>, ptrs: seq<int>, keys: multiset<int>, minKey: int, range: nat)
    requires Filled(out, ptrs, keys, keys, minKey, range)
    ensures out[..CountRange(keys, minKey, minKey + range)] == Expand(keys, minKey, minKey + range)
  {
    forall slot | 0 <= slot < CountRange(keys, minKey, minKey + range)
      ensures out[slot] == Expand(keys, minKey, minKey + range)[slot]
    {
      var k := BlockOf(keys, minKey, minKey + range, slot);
      FilledSlot(out, ptrs, keys, minKey, range, k, slot);
    }
  }

  /** A slot that has been handed out to a key lies above the key's pointer, in the key's block. */
  ghost predicate SlotTaken(slot: int, k: int, ptrs: seq<int>, keys: multiset<int>, minKey: int)
  {
    && 0 <= k - minKey < |ptrs|
    && CountRange(keys, minKey, k) <= ptrs[k - minKey] <= slot < CountRange(keys, minKey, k + 1)
  }

  lemma TakenSlotsDiffer(slot: int, k: int, slot': int, k': int, ptrs: seq<int>, keys: multiset<int>, minKey: int)
    requires SlotTaken(slot, k, ptrs, keys, minKey) && 0 <= k' - minKey < |ptrs|
    requires slot' == ptrs[k' - minKey] - 1
    requires CountRange(keys, minKey, k') <= slot' < CountRange(keys, minKey, k' + 1)
    ensures slot != slot'
    ensures SlotTaken(slot, k, ptrs[k' - minKey := slot'], keys, minKey)
  {
    if k < k' {
      BlocksInOrder(keys, minKey, k + 1, k');
    } else if k' < k {
      BlocksInOrder(keys, minKey, k' + 1, k);
    }
  }

  /** The slots handed out to the keys seen so far are taken and all different. */
  ghost predicate SlotsTaken(slots: seq<int>, keyBuff2: seq<int>, ptrs: seq<int>, keys: multiset<int>, minKey: int)
  {
    && |slots| <= |keyBuff2|
    && (forall i :: 0 <= i < |slots| ==> SlotTaken(slots[i], keyBuff2[i], ptrs, keys, minKey))
    && (forall i, j :: 0 <= i < j < |slots| ==> slots[i] != slots[j])
  }

  lemma TakeSlot(slots: seq<int>, keyBuff2: seq<int>, ptrs: seq<int>, keys: multiset<int>, minKey: int)
    requires SlotsTaken(slots, keyBuff2, ptrs, keys, minKey) && |slots| < |keyBuff2|
    requires 0 <= keyBuff2[|slots|] - minKey < |ptrs|
    requires var k := keyBuff2[|slots|];
             CountRange(keys, minKey, k) <= ptrs[k - minKey] - 1 < CountRange(keys, minKey, k + 1)
    ensures var k := keyBuff2[|slots|];
            SlotsTaken(slots + [ptrs[k - minKey] - 1], keyBuff2, ptrs[k - minKey := ptrs[k - minKey] - 1], keys, minKey)
  {
    var k := keyBuff2[|slots|];
    var slot := ptrs[k - minKey] - 1;
    var ptrs' := ptrs[k - minKey := slot];
    forall i | 0 <= i < |slots| ensures slots[i] != slot && SlotTaken(slots[i], keyBuff2[i], ptrs', keys, minKey) {
      TakenSlotsDiffer(slots[i], keyBuff2[i], slot, k, ptrs, keys, minKey);
    }
  }

  lemma SlotsInRange(slots: seq<int>, keyBuff2: seq<int>, ptrs: seq<int>, keys: multiset<int>, minKey: int, maxKey: int)
    requires SlotsTaken(slots, keyBuff2, ptrs, keys, minKey) && CountRange(keys, minKey, maxKey + 1) == |keyBuff2|
    requires forall i :: 0 <= i < |keyBuff2| ==> minKey <= keyBuff2[i] <= maxKey
    ensures forall i :: 0 <= i < |slots| ==> 0 <= slots[i] < |keyBuff2|
  {
    forall i | 0 <= i < |slots| ensures 0 <= slots[i] < |keyBuff2| {
      assert SlotTaken(slots[i], keyBuff2[i], ptrs, keys, minKey);
      BlocksInOrder(keys, minKey, keyBuff2[i] + 1, maxKey + 1);
    }
  }

  /** The state of the sorting loop when the keys `seen` have been written to `slots`. */
  ghost predicate Scattering(out: seq<int>, ptrs: seq<int>, keyBuff2: seq<int>,
                             keys: multiset<int>, seen: multiset<int>,
                             slots: seq<int>, minKey: int, range: nat)
  {
    && CountRange(keys, minKey, minKey + range) == |keyBuff2|
    && Filled(out, ptrs, keys, seen, minKey, range)
    && SlotsTaken(slots, keyBuff2, ptrs, keys, minKey)
  }

  lemma ScatterNext(out: seq<int>, ptrs: seq<int>, keyBuff2: seq<int>, keys: multiset<int>, seen: multiset<int>,
                    slots: seq<int>, minKey: int, range: nat, k: int)
    requires Scattering(out, ptrs, keyBuff2, keys, seen, slots, minKey, range)
    requires |slots| < |keyBuff2| && k == keyBuff2[|slots|] && minKey <= k < minKey + range
    requires seen + multiset{k} <= keys
    ensures var slot := ptrs[k - minKey] - 1;
            && 0 <= slot < |keyBuff2| <= |out|
            && Scattering(out[slot := k], ptrs[k - minKey := slot], keyBuff2, keys, seen + multiset{k}, slots + [slot],
                          minKey, range)
  {
    FillNext(out, ptrs, keys, seen, minKey, range, k);
    BlocksInOrder(keys, minKey, k + 1, minKey + range);
    TakeSlot(slots, keyBuff2, ptrs, keys, minKey);
  }

  /** The first i keys. */
  function Seen(keyBuff2: seq<int>, i: nat): multiset<int>
    requires i <= |keyBuff2|
  {
    if i == 0 then multiset{} else Seen(keyBuff2, i - 1) + multiset{keyBuff2[i - 1]}
  }

  lemma {:induction false} SeenIsPrefix(keyBuff2: seq<int>, i: nat)
    requires i <= |keyBuff2|
    ensures Seen(keyBuff2, i) == multiset(keyBuff2[..i])
  {
    if i > 0 {
      SeenIsPrefix(keyBuff2, i - 1);
      assert keyBuff2[..i] == keyBuff2[..i - 1] + [keyBuff2[i - 1]];
    }
  }

  lemma {:induction false} SeenGrows(keyBuff2: seq<int>, i: nat, j: nat)
    requires i <= j <= |keyBuff2|
    ensures Seen(keyBuff2, i) <= Seen(keyBuff2, j)
    decreases j - i
  {
    if i < j {
      SeenGrows(keyBuff2, i, j - 1);
    }
  }

  lemma NothingScattered(out: seq<int>, ptrs: seq<int>, keyBuff2: seq<int>, keys: multiset<int>,
                         minKey: int, range: nat)
    requires CountRange(keys, minKey, minKey + range) == |keyBuff2| <= |out| && Cumulative(ptrs, keys, minKey, range)
    ensures Scattering(out, ptrs, keyBuff2, keys, multiset{}, [], minKey, range)
  {
    forall i | 0 <= i < range ensures FilledBlock(out, ptrs[i], keys, multiset{}, minKey, minKey + i) {
      BlocksInOrder(keys, minKey, minKey + i + 1, minKey + range);
    }
  }

  lemma AllKeysInRange(keyBuff2: seq<int>, minKey: int, range: nat)
    requires forall k :: k in keyBuff2 ==> minKey <= k < minKey + range
    ensures CountRange(multiset(keyBuff2), minKey, minKey + range) == |keyBuff2|
  {
    assert forall k :: k in multiset(keyBuff2) ==> k in keyBuff2;
    ExpandIsPermutation(multiset(keyBuff2), minKey, minKey + range);
  }

  /** Decrements the pointer of key i and writes the key there. */
  method WriteBelowPointer(keyBuff2: seq<int>, i: nat, minKey: int, keyBuffPtr: array<int>, keyArray: array<int>,
                           ghost keys: multiset<int>, ghost slots: seq<int>, ghost range: nat)
    returns (ghost slots': seq<int>)
    requires keyBuffPtr != keyArray && |slots| == i < |keyBuff2| && minKey <= keyBuff2[i] < minKey + range
    requires keys == Seen(keyBuff2, |keyBuff2|)
    requires Scattering(keyArray[..], keyBuffPtr[..], keyBuff2, keys, Seen(keyBuff2, i), slots, minKey, range)
    modifies keyBuffPtr, keyArray
    ensures Scattering(keyArray[..], keyBuffPtr[..], keyBuff2, keys, Seen(keyBuff2, i + 1), slots', minKey, range)
    ensures |slots'| == i + 1 && |keyBuff2| <= keyArray.Length
    ensures keyArray[..][|keyBuff2|..] == old(keyArray[..])[|keyBuff2|..]
  {
    ghost var out, ptrs, seen := keyArray[..], keyBuffPtr[..], Seen(keyBuff2, i);
    var key := keyBuff2[i];
    assert seen + multiset{key} <= keys by {
      SeenGrows(keyBuff2, i + 1, |keyBuff2|);
    }
    ScatterNext(out, ptrs, keyBuff2, keys, seen, slots, minKey, range, key);
    keyBuffPtr[key - minKey] := keyBuffPtr[key - minKey] - 1;
    var slot := keyBuffPtr[key - minKey];
    keyArray[slot] := key;
    slots' := slots + [slot];
    assert keyBuffPtr[..] == ptrs[key - minKey := slot] && keyArray[..] == out[slot := key];
  }

  method ScatterLoop(keyBuff2: seq<int>, minKey: int, maxKey: int, keyBuffPtr: array<int>, keyArray: array<int>,
                     ghost keys: multiset<int>)
    returns (ghost slots: seq<int>)
    requires minKey <= maxKey + 1 && keyBuffPtr != keyArray && |keyBuff2| <= keyArray.Length
    requires forall i :: 0 <= i < |keyBuff2| ==> minKey <= keyBuff2[i] <= maxKey
    requires Cumulative(keyBuffPtr[..], keys, minKey, maxKey - minKey + 1)
    requires CountRange(keys, minKey, maxKey + 1) == |keyBuff2| && keys == Seen(keyBuff2, |keyBuff2|)
    modifies keyBuffPtr, keyArray
    ensures keyArray[..|keyBuff2|] == Expand(keys, minKey, maxKey + 1)
    ensures keyArray[..][|keyBuff2|..] == old(keyArray[..])[|keyBuff2|..]
    ensures |slots| == |keyBuff2| && forall i :: 0 <= i < |slots| ==> 0 <= slots[i] < |keyBuff2|
    ensures forall i, j :: 0 <= i < j < |slots| ==> slots[i] != slots[j]
  {
    ghost var range := maxKey - minKey + 1;
    NothingScattered(keyArray[..], keyBuffPtr[..], keyBuff2, keys, minKey, range);
    slots := [];
    for i := 0 to |keyBuff2|
      invariant |slots| == i
      invariant Scattering(keyArray[..], keyBuffPtr[..], keyBuff2, keys, Seen(keyBuff2, i), slots, minKey, range)
      invariant keyArray[..][|keyBuff2|..] == old(keyArray[..])[|keyBuff2|..]
    {
      slots := WriteBelowPointer(keyBuff2, i, minKey, keyBuffPtr, keyArray, keys, slots, range);
    }
    AllFilled(keyArray[..], keyBuffPtr[..], keys, minKey, range);
    SlotsInRange(slots, keyBuff2, keyBuffPtr[..], keys, minKey, maxKey);
  }

  /**
   The sorting loop of full_verify: every key is written to the slot below its pointer. Each of
   the slots is written exactly once, and the result is the keys in order; the rest of the key
   array keeps its stale values.
   */
  method ScatterKeys(keyBuff2: seq<int>, minKey: int, maxKey: int, keyBuffPtr: array<int>, keyArray: array<int>)
    returns (ghost slots: seq<int>)
    requires minKey <= maxKey + 1 && keyBuffPtr != keyArray && |keyBuff2| <= keyArray.Length
    requires forall k :: k in keyBuff2 ==> minKey <= k <= maxKey
    requires Cumulative(keyBuffPtr[..], multiset(keyBuff2), minKey, maxKey - minKey + 1)
    modifies keyBuffPtr, keyArray
    ensures keyArray[..|keyBuff2|] == Expand(multiset(keyBuff2), minKey, maxKey + 1)
    ensures keyArray[..][|keyBuff2|..] == old(keyArray[..])[|keyBuff2|..]
    ensures |slots| == |keyBuff2| && forall i :: 0 <= i < |slots| ==> 0 <= slots[i] < |keyBuff2|
    ensures forall i, j :: 0 <= i < j < |slots| ==> slots[i] != slots[j]
  {
    AllKeysInRange(keyBuff2, minKey, maxKey - minKey + 1);
    SeenIsPrefix(keyBuff2, |keyBuff2|);
    assert keyBuff2[..|keyBuff2|] == keyBuff2;
    assert forall i :: 0 <= i < |keyBuff2| ==> keyBuff2[i] in keyBuff2;
    slots := ScatterLoop(keyBuff2, minKey, maxKey, keyBuffPtr, keyArray, multiset(keyBuff2));
  }
}
