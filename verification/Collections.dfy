/** Sums over sequences of numbers and of multisets. */
module Collections {

  function Sum(s: seq<int>): int
  {
    if s == [] then 0 else Sum(s[..|s| - 1]) + s[|s| - 1]
  }

  /** The sum of the first n numbers. */
  function Prefix(s: seq<int>, n: nat): int
    requires n <= |s|
  {
    Sum(s[..n])
  }

  lemma SumStep(s: seq<int>, i: nat)
    requires i < |s|
    ensures Prefix(s, i + 1) == Prefix(s, i) + s[i]
  {
    assert s[..i + 1][..i] == s[..i];
  }

  lemma SumOne(v: int)
    ensures Sum([v]) == v
  {
    assert [v][..0] == [];
  }

  lemma {:induction false} SumConcat(s: seq<int>, t: seq<int>)
    ensures Sum(s + t) == Sum(s) + Sum(t)
  {
    if t == [] {
      assert s + t == s;
    } else {
      SumConcat(s, t[..|t| - 1]);
      assert (s + t)[..|s + t| - 1] == s + t[..|t| - 1];
    }
  }

  lemma SumSplit(s: seq<int>, i: nat, j: nat)
    requires i <= j <= |s|
    ensures Sum(s[..j]) == Sum(s[..i]) + Sum(s[i..j])
  {
    assert s[..j] == s[..i] + s[i..j];
    SumConcat(s[..i], s[i..j]);
  }

  lemma SumUpdate(s: seq<int>, i: nat, v: int)
    requires i < |s|
    ensures Sum(s[i := v]) == Sum(s) - s[i] + v
  {
    var t := s[i := v];
    assert s == s[..|s|] && t == t[..|s|];
    SumSplit(s, i, |s|);
    SumSplit(t, i, |s|);
    assert s[..i] == t[..i];
    assert s[i..] == [s[i]] + s[i + 1..] && t[i..] == [v] + s[i + 1..];
    SumConcat([s[i]], s[i + 1..]);
    SumConcat([v], s[i + 1..]);
    SumOne(s[i]);
    SumOne(v);
  }

  lemma {:induction false} SumNonnegative(s: seq<int>)
    requires forall i :: 0 <= i < |s| ==> s[i] >= 0
    ensures Sum(s) >= 0
    ensures Sum(s) == 0 ==> forall i :: 0 <= i < |s| ==> s[i] == 0
  {
    if s != [] {
      SumNonnegative(s[..|s| - 1]);
    }
  }

  lemma {:induction false} SumZeros(s: seq<int>)
    requires forall i :: 0 <= i < |s| ==> s[i] == 0
    ensures Sum(s) == 0
  {
    if s != [] {
      SumZeros(s[..|s| - 1]);
    }
  }

  lemma {:induction false} SumAtMost(s: seq<int>, t: seq<int>)
    requires |s| == |t| && forall i :: 0 <= i < |s| ==> s[i] <= t[i]
    ensures Sum(s) <= Sum(t)
  {
    if s != [] {
      SumAtMost(s[..|s| - 1], t[..|t| - 1]);
    }
  }

  /** Prefix sums of nonnegative numbers grow. */
  lemma PrefixMonotone(s: seq<int>, i: nat, j: nat)
    requires i <= j <= |s| && forall k :: 0 <= k < |s| ==> s[k] >= 0
    ensures Prefix(s, i) <= Prefix(s, j)
  {
    SumSplit(s, i, j);
    SumNonnegative(s[i..j]);
  }

  lemma ConcatAssociative<T>(a: seq<T>, b: seq<T>, c: seq<T>)
    ensures (a + b) + c == a + (b + c)
  {
  }

  function Concat(parts: seq<seq<int>>): seq<int>
  {
    if parts == [] then [] else Concat(parts[..|parts| - 1]) + parts[|parts| - 1]
  }

  lemma ConcatStep(parts: seq<seq<int>>, n: nat)
    requires 0 < n <= |parts|
    ensures Concat(parts[..n]) == Concat(parts[..n - 1]) + parts[n - 1]
  {
    assert parts[..n][..n - 1] == parts[..n - 1];
  }

  lemma {:induction false} ConcatFirst(parts: seq<seq<int>>)
    requires parts != []
    ensures Concat(parts) == parts[0] + Concat(parts[1..])
  {
    var n := |parts| - 1;
    if n > 0 {
      ConcatFirst(parts[..n]);
      assert parts[..n][1..] == parts[1..][..n - 1];
      ConcatAssociative(parts[0], Concat(parts[1..][..n - 1]), parts[n]);
    }
  }

  // ---------- multisets ----------

  function MSum(ms: seq<multiset<int>>): multiset<int>
  {
    if ms == [] then multiset{} else MSum(ms[..|ms| - 1]) + ms[|ms| - 1]
  }

  lemma {:induction false} MSumConcat(a: seq<multiset<int>>, b: seq<multiset<int>>)
    ensures MSum(a + b) == MSum(a) + MSum(b)
  {
    if b == [] {
      assert a + b == a;
    } else {
      MSumConcat(a, b[..|b| - 1]);
      assert (a + b)[..|a + b| - 1] == a + b[..|b| - 1];
    }
  }

  lemma MSumOne(x: multiset<int>)
    ensures MSum([x]) == x
  {
    assert [x][..0] == [];
    assert MSum([x]) == multiset{} + x;
  }

  lemma PartOfSum(a: multiset<int>, x: multiset<int>)
    ensures x <= a + x
  {
  }

  lemma Cancel(x: multiset<int>, y: multiset<int>, y': multiset<int>)
    requires x + y == x + y'
    ensures y == y'
  {
    forall k ensures y[k] == y'[k] {
      assert (x + y)[k] == (x + y')[k];
    }
  }

  lemma SwapLast(a: multiset<int>, x: multiset<int>, b: multiset<int>)
    ensures (a + x) + b == (a + b) + x
  {
  }

  lemma SplitAround(ms: seq<multiset<int>>, i: nat)
    requires i < |ms|
    ensures ms == (ms[..i] + [ms[i]]) + ms[i + 1..]
  {
  }

  lemma MSumOfThree(front: seq<multiset<int>>, x: multiset<int>, back: seq<multiset<int>>)
    ensures MSum((front + [x]) + back) == MSum(front + back) + x
  {
    MSumConcat(front + [x], back);
    MSumConcat(front, [x]);
    MSumConcat(front, back);
    MSumOne(x);
    SwapLast(MSum(front), x, MSum(back));
  }

  /** A sum splits at any element. */
  lemma MSumAround(ms: seq<multiset<int>>, i: nat)
    requires i < |ms|
    ensures MSum(ms) == MSum(ms[..i] + ms[i + 1..]) + ms[i]
    ensures ms[i] <= MSum(ms)
  {
    SplitAround(ms, i);
    MSumOfThree(ms[..i], ms[i], ms[i + 1..]);
    PartOfSum(MSum(ms[..i] + ms[i + 1..]), ms[i]);
  }

  lemma MSumUpdate(ms: seq<multiset<int>>, i: nat, v: multiset<int>)
    requires i < |ms|
    ensures MSum(ms[i := v]) + ms[i] == MSum(ms) + v
  {
    var t := ms[i := v];
    MSumAround(ms, i);
    MSumAround(t, i);
    assert t[..i] + t[i + 1..] == ms[..i] + ms[i + 1..];
  }

  lemma {:induction false} MSumEmpty(ms: seq<multiset<int>>)
    requires forall i :: 0 <= i < |ms| ==> ms[i] == multiset{}
    ensures MSum(ms) == multiset{}
  {
    if ms != [] {
      MSumEmpty(ms[..|ms| - 1]);
    }
  }

  lemma MSumIsEmpty(ms: seq<multiset<int>>, i: nat)
    requires i < |ms| && MSum(ms) == multiset{}
    ensures ms[i] == multiset{}
  {
    MSumAround(ms, i);
  }

  /** The keys of sequences that are joined. */
  lemma {:induction false} ConcatHolds(parts: seq<seq<int>>, held: seq<multiset<int>>)
    requires |held| == |parts| && forall r :: 0 <= r < |held| ==> held[r] == multiset(parts[r])
    ensures MSum(held) == multiset(Concat(parts))
  {
    if parts != [] {
      ConcatHolds(parts[..|parts| - 1], held[..|parts| - 1]);
    }
  }
}
