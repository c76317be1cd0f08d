/** `passageTimes.Distinct().Order()`: the passage times, each once, in
    ascending order. */
module PassageOrder {

  import opened Clock

  predicate StrictlyIncreasing(s: seq<Time>) {
    forall i, j :: 0 <= i < j < |s| ==> s[i] < s[j]
  }

  /** Places `x` in the sorted sequence `s`, unless it is already there. */
  function Insert(x: Time, s: seq<Time>): (r: seq<Time>)
    requires StrictlyIncreasing(s)
    ensures StrictlyIncreasing(r)
    ensures forall t :: t in r <==> t == x || t in s
    decreases |s|
  {
    if |s| == 0 then [x]
    else if x < s[0] then [x] + s
    else if x == s[0] then s
    else
      var rest := Insert(x, s[1..]);
      assert forall i :: 0 <= i < |rest| ==> rest[i] > s[0] by {
        forall i | 0 <= i < |rest|
          ensures rest[i] > s[0]
        {
          assert rest[i] in rest;
        }
      }
      [s[0]] + rest
  }

  /** The distinct times of `times`, ascending. */
  function SortedDistinct(times: seq<Time>): (r: seq<Time>)
    ensures StrictlyIncreasing(r)
    ensures forall t :: t in r <==> t in times
    decreases |times|
  {
    if |times| == 0 then []
    else Insert(times[|times| - 1], SortedDistinct(times[..|times| - 1]))
  }

  /** Two ascending duplicate-free sequences with the same elements are equal:
      `SortedDistinct` is the only possible result of `Distinct().Order()`. */
  lemma {:induction false} SortedUnique(a: seq<Time>, b: seq<Time>)
    requires StrictlyIncreasing(a) && StrictlyIncreasing(b)
    requires forall t :: t in a <==> t in b
    ensures a == b
    decreases |a|
  {
    if |a| != 0 {
      assert a[0] in b;
    }
    if |b| != 0 {
      assert b[0] in a;
    }
    if |a| != 0 {
      assert a[0] == b[0] by {
        assert a[0] in b;
        assert b[0] in a;
      }
      forall t
        ensures t in a[1..] <==> t in b[1..]
      {
        if t in a[1..] {
          assert t in b;
          assert t != b[0];
        }
        if t in b[1..] {
          assert t in a;
          assert t != a[0];
        }
      }
      SortedUnique(a[1..], b[1..]);
      assert a == [a[0]] + a[1..];
      assert b == [b[0]] + b[1..];
    }
  }

  /** The sorted distinct times depend only on which times occur. */
  lemma SortedDistinctBySet(a: seq<Time>, b: seq<Time>)
    requires forall t :: t in a <==> t in b
    ensures SortedDistinct(a) == SortedDistinct(b)
  {
    SortedUnique(SortedDistinct(a), SortedDistinct(b));
  }
}
