// Sums over the threads of a pool or the slots of a table.

module Counting {

  /** Adds up a weight over a sequence; a 0/1 weight makes it a count. */
  ghost function Sum<T>(weight: T -> nat, s: seq<T>): nat {
    if s == [] then 0 else weight(s[0]) + Sum(weight, s[1..])
  }

  lemma {:induction false} SumUpdate<T>(weight: T -> nat, s: seq<T>, i: nat, x: T)
    requires i < |s|
    ensures Sum(weight, s[i := x]) + weight(s[i]) == Sum(weight, s) + weight(x)
  {
    if i == 0 {
      assert s[i := x][1..] == s[1..];
    } else {
      SumUpdate(weight, s[1..], i - 1, x);
      assert s[i := x][1..] == s[1..][i - 1 := x];
    }
  }

  /** One weight is at most the sum. */
  lemma {:induction false} SumAtLeast<T>(weight: T -> nat, s: seq<T>, i: nat)
    requires i < |s|
    ensures weight(s[i]) <= Sum(weight, s)
  {
    if i > 0 {
      SumAtLeast(weight, s[1..], i - 1);
    }
  }

  /** Raising every weight by at most `rise` raises the sum by at most `rise` each. */
  lemma {:induction false} SumRaised<T>(weight: T -> nat, s: seq<T>, t: seq<T>, rise: nat)
    requires |s| == |t|
    requires forall i | 0 <= i < |s| :: weight(t[i]) <= weight(s[i]) + rise
    ensures Sum(weight, t) <= Sum(weight, s) + rise * |s|
  {
    if s != [] {
      SumRaised(weight, s[1..], t[1..], rise);
      assert rise * |s| == rise + rise * (|s| - 1);
    }
  }

  /** Raising no weight down and one weight up raises the sum. */
  lemma {:induction false} SumStrictlyRaised<T>(weight: T -> nat, s: seq<T>, t: seq<T>, i: nat)
    requires |s| == |t| && i < |s|
    requires forall j | 0 <= j < |s| :: weight(s[j]) <= weight(t[j])
    requires weight(s[i]) < weight(t[i])
    ensures Sum(weight, s) < Sum(weight, t)
  {
    if i == 0 {
      SumMonotone(weight, s[1..], t[1..]);
    } else {
      SumStrictlyRaised(weight, s[1..], t[1..], i - 1);
    }
  }

  lemma {:induction false} SumMonotone<T>(weight: T -> nat, s: seq<T>, t: seq<T>)
    requires |s| == |t|
    requires forall j | 0 <= j < |s| :: weight(s[j]) <= weight(t[j])
    ensures Sum(weight, s) <= Sum(weight, t)
  {
    if s != [] {
      SumMonotone(weight, s[1..], t[1..]);
    }
  }

  /** A sum whose weights are at most `top` is at most `top` per element. */
  lemma {:induction false} SumBounded<T>(weight: T -> nat, s: seq<T>, top: nat)
    requires forall i | 0 <= i < |s| :: weight(s[i]) <= top
    ensures Sum(weight, s) <= top * |s|
  {
    if s != [] {
      SumBounded(weight, s[1..], top);
      assert top * |s| == top + top * (|s| - 1);
    }
  }

  lemma {:induction false} SumZero<T>(weight: T -> nat, s: seq<T>)
    requires forall i | 0 <= i < |s| :: weight(s[i]) == 0
    ensures Sum(weight, s) == 0
  {
    if s != [] {
      SumZero(weight, s[1..]);
    }
  }

  lemma {:induction false} SumAppend<T>(weight: T -> nat, s: seq<T>, x: T)
    ensures Sum(weight, s + [x]) == Sum(weight, s) + weight(x)
  {
    if s == [] {
      assert s + [x] == [x];
    } else {
      SumAppend(weight, s[1..], x);
      assert (s + [x])[1..] == s[1..] + [x];
    }
  }

  /** Two different positions both count. */
  lemma {:induction false} SumOfTwo<T>(weight: T -> nat, s: seq<T>, i: nat, j: nat)
    requires i < j < |s|
    ensures weight(s[i]) + weight(s[j]) <= Sum(weight, s)
  {
    if i == 0 {
      SumAtLeast(weight, s[1..], j - 1);
    } else {
      SumOfTwo(weight, s[1..], i - 1, j - 1);
    }
  }

  lemma SubsetSize<T>(s: set<T>, t: set<T>)
    requires s <= t
    ensures |s| <= |t|
  {
    assert t == s + (t - s);
    assert |t| == |s| + |t - s|;
  }
}
