/**
 * `sorted(set(a).symmetric_difference(b))` over integer offsets, written with
 * sequences: a strictly increasing sequence stands for a sorted set.
 */
module SortedSets {

  predicate StrictlyIncreasing(s: seq<int>)
  {
    forall i, j :: 0 <= i < j < |s| ==> s[i] < s[j]
  }

  /** Adds x to a sorted set; adding a member already present changes nothing. */
  function Insert(x: int, s: seq<int>): (r: seq<int>)
    requires StrictlyIncreasing(s)
    ensures StrictlyIncreasing(r)
    ensures forall y :: y in r <==> y == x || y in s
  {
    if s == [] then [x]
    else if x < s[0] then [x] + s
    else if x == s[0] then s
    else
      var tail := Insert(x, s[1..]);
      assert forall y :: y in tail ==> s[0] < y;
      var r := [s[0]] + tail;
      assert forall j :: 0 < j < |r| ==> r[j] == tail[j - 1] && r[j] in tail;
      r
  }

  /** `sorted(set(xs))`: the distinct members of xs in ascending order. */
  function SortedDistinct(xs: seq<int>): (r: seq<int>)
    ensures StrictlyIncreasing(r)
    ensures forall y :: y in r <==> y in xs
  {
    if xs == [] then []
    else
      assert forall y :: y in xs <==> y == xs[0] || y in xs[1..];
      Insert(xs[0], SortedDistinct(xs[1..]))
  }

  /** The members of a that are not members of b, in the order of a. */
  function Without(a: seq<int>, b: seq<int>): (r: seq<int>)
    ensures forall y :: y in r <==> y in a && y !in b
  {
    if a == [] then []
    else
      assert forall y :: y in a <==> y == a[0] || y in a[1..];
      (if a[0] in b then [] else [a[0]]) + Without(a[1..], b)
  }

  /**
   * `sorted(set(a).symmetric_difference(b))`: the offsets that occur in exactly
   * one of the two lists, ascending and without repetitions.
   */
  function SymmetricDifference(a: seq<int>, b: seq<int>): (r: seq<int>)
    ensures StrictlyIncreasing(r)
    ensures forall y :: y in r <==> (y in a) != (y in b)
  {
    SortedDistinct(Without(a, b) + Without(b, a))
  }

  /** A sorted set is determined by its members. */
  lemma {:induction false} StrictlyIncreasingUnique(s: seq<int>, t: seq<int>)
    requires StrictlyIncreasing(s) && StrictlyIncreasing(t)
    requires forall y :: y in s <==> y in t
    ensures s == t
  {
    if s == [] || t == [] {
      HeadIsMember(s);
      HeadIsMember(t);
    } else {
      assert s[0] in t && t[0] in s;
      assert s[0] == t[0];
      forall y
        ensures y in s[1..] <==> y in t[1..]
      {
        if y in s[1..] {
          assert y in t && y != t[0];
        }
        if y in t[1..] {
          assert y in s && y != s[0];
        }
      }
      StrictlyIncreasingUnique(s[1..], t[1..]);
      assert s == [s[0]] + s[1..] && t == [t[0]] + t[1..];
    }
  }

  lemma HeadIsMember(s: seq<int>)
    ensures s != [] ==> s[0] in s
  {
  }

  /** Which list comes first does not matter. */
  lemma SymmetricDifferenceCommutes(a: seq<int>, b: seq<int>)
    ensures SymmetricDifference(a, b) == SymmetricDifference(b, a)
  {
    StrictlyIncreasingUnique(SymmetricDifference(a, b), SymmetricDifference(b, a));
  }
}
