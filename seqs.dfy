/** Sequences as the database returns them: filtered querysets, reversed
    (descending) orderings, and the facts about orderings the feeds rely on. */
module Seqs {

  datatype Option<T> = None | Some(value: T)

  /** The first position of s whose element satisfies p (`queryset.filter(p).first()`). */
  function FindIndex<T>(s: seq<T>, p: T -> bool): (r: Option<nat>)
    ensures r.Some? ==> r.value < |s| && p(s[r.value])
    ensures r.Some? ==> forall k :: 0 <= k < r.value ==> !p(s[k])
    ensures r.None? <==> forall k :: 0 <= k < |s| ==> !p(s[k])
  {
    if s == [] then None
    else if p(s[0]) then Some(0)
    else match FindIndex(s[1..], p)
      case None => None
      case Some(k) => Some(k + 1)
  }

  /** `queryset.filter(p)`: the elements of s satisfying p, in their original order. */
  function Filter<T(!new)>(s: seq<T>, p: T -> bool): (r: seq<T>)
    ensures |r| <= |s|
    ensures forall x :: x in r <==> x in s && p(x)
  {
    if s == [] then []
    else
      var rest := Filter(s[1..], p);
      assert forall x :: x in s <==> x == s[0] || x in s[1..];
      (if p(s[0]) then [s[0]] else []) + rest
  }

  lemma {:induction false} FilterConcat<T(!new)>(a: seq<T>, b: seq<T>, p: T -> bool)
    ensures Filter(a + b, p) == Filter(a, p) + Filter(b, p)
  {
    if a == [] {
      assert a + b == b;
    } else {
      assert (a + b)[1..] == a[1..] + b;
      FilterConcat(a[1..], b, p);
    }
  }

  /** Filtering with a predicate that every element satisfies changes nothing. */
  lemma {:induction false} FilterKeepsAll<T(!new)>(s: seq<T>, p: T -> bool)
    requires forall x :: x in s ==> p(x)
    ensures Filter(s, p) == s
  {
    if s != [] {
      FilterKeepsAll(s[1..], p);
    }
  }

  /** s without its element at position i (one row deleted). */
  function RemoveAt<T>(s: seq<T>, i: nat): (r: seq<T>)
    requires i < |s|
    ensures |r| == |s| - 1
    ensures forall k :: 0 <= k < |r| ==> r[k] == s[if k < i then k else k + 1]
  {
    seq(|s| - 1, k requires 0 <= k < |s| - 1 => if k < i then s[k] else s[k + 1])
  }

  /** RemoveAt is the concatenation of the slices before and after position i. */
  lemma RemoveAtSlices<T>(s: seq<T>, i: nat)
    requires i < |s|
    ensures RemoveAt(s, i) == s[..i] + s[i + 1..]
  {
  }

  /** The elements left after removing position i are those at the other positions. */
  lemma RemoveAtMembers<T>(s: seq<T>, i: nat)
    requires i < |s|
    ensures forall x :: x in RemoveAt(s, i) <==> exists k :: 0 <= k < |s| && k != i && s[k] == x
  {
    var r := RemoveAt(s, i);
    forall x | x in r ensures exists k :: 0 <= k < |s| && k != i && s[k] == x {
      var m :| 0 <= m < |r| && r[m] == x;
      if m < i { assert s[m] == x; } else { assert s[m + 1] == x; }
    }
    forall x | (exists k :: 0 <= k < |s| && k != i && s[k] == x) ensures x in r {
      var k :| 0 <= k < |s| && k != i && s[k] == x;
      if k < i { assert r[k] == x; } else { assert r[k - 1] == x; }
    }
  }

  /** Removing position i from s removes one element from the filtered sequence
      exactly when s[i] satisfies p. */
  lemma FilterRemoveAt<T(!new)>(s: seq<T>, i: nat, p: T -> bool)
    requires i < |s|
    ensures |Filter(RemoveAt(s, i), p)| == |Filter(s, p)| - (if p(s[i]) then 1 else 0)
  {
    RemoveAtSlices(s, i);
    assert s == s[..i] + ([s[i]] + s[i + 1..]);
    FilterConcat(s[..i], [s[i]] + s[i + 1..], p);
    FilterConcat([s[i]], s[i + 1..], p);
    FilterConcat(s[..i], s[i + 1..], p);
  }

  /** `queryset.reverse()`. */
  function Reverse<T>(s: seq<T>): (r: seq<T>)
    ensures |r| == |s|
    ensures forall k :: 0 <= k < |s| ==> r[k] == s[|s| - 1 - k]
  {
    seq(|s|, k requires 0 <= k < |s| => s[|s| - 1 - k])
  }

  lemma ReverseMembers<T>(s: seq<T>)
    ensures forall x :: x in Reverse(s) <==> x in s
  {
    var r := Reverse(s);
    forall x | x in s ensures x in r {
      var k :| 0 <= k < |s| && s[k] == x;
      assert r[|s| - 1 - k] == x;
    }
  }

  /** A subset is no larger than its superset. */
  lemma SubsetCardinality<T>(a: set<T>, b: set<T>)
    requires a <= b
    ensures |a| <= |b|
  {
    assert b == a + (b - a);
  }

  /** Keys strictly increase along s. */
  predicate IncreasingBy<T>(s: seq<T>, key: T -> int)
  {
    forall i, j {:trigger key(s[i]), key(s[j])} :: 0 <= i < j < |s| ==> key(s[i]) < key(s[j])
  }

  /** Keys strictly decrease along s. */
  predicate DecreasingBy<T>(s: seq<T>, key: T -> int)
  {
    forall i, j {:trigger key(s[i]), key(s[j])} :: 0 <= i < j < |s| ==> key(s[i]) > key(s[j])
  }

  /** Filtering keeps a strictly increasing order. */
  lemma {:induction false} FilterIncreasing<T(!new)>(s: seq<T>, p: T -> bool, key: T -> int)
    ensures IncreasingBy(s, key) ==> IncreasingBy(Filter(s, p), key)
  {
    if s != [] && IncreasingBy(s, key) {
      FilterIncreasing(s[1..], p, key);
      var rest := Filter(s[1..], p);
      forall x | x in rest ensures key(s[0]) < key(x) {
        var j :| 0 <= j < |s[1..]| && s[1..][j] == x;
        assert s[j + 1] == x;
      }
    }
  }

  /** Reversing turns a strictly increasing order into a strictly decreasing one. */
  lemma ReverseDecreasing<T>(s: seq<T>, key: T -> int)
    ensures IncreasingBy(s, key) ==> DecreasingBy(Reverse(s), key)
  {
    var r := Reverse(s);
    if IncreasingBy(s, key) {
      forall i, j | 0 <= i < j < |r| ensures key(r[i]) > key(r[j]) {
        assert r[i] == s[|s| - 1 - i] && r[j] == s[|s| - 1 - j];
      }
    }
  }

  /** Appending an element with a larger key than all keeps a strictly increasing order. */
  lemma AppendIncreasing<T>(s: seq<T>, x: T, key: T -> int)
    requires IncreasingBy(s, key)
    requires forall k :: 0 <= k < |s| ==> key(s[k]) < key(x)
    ensures IncreasingBy(s + [x], key)
  {
    var r := s + [x];
    forall a, b | 0 <= a < b < |r| ensures key(r[a]) < key(r[b]) {
      assert r[a] == s[a];
      if b < |s| { assert r[b] == s[b]; } else { assert r[b] == x; }
    }
  }

  /** Removing one element keeps a strictly increasing order. */
  lemma RemoveAtIncreasing<T>(s: seq<T>, i: nat, key: T -> int)
    requires i < |s| && IncreasingBy(s, key)
    ensures IncreasingBy(RemoveAt(s, i), key)
  {
    var r := RemoveAt(s, i);
    forall a, b | 0 <= a < b < |r| ensures key(r[a]) < key(r[b]) {
      var a', b' := if a < i then a else a + 1, if b < i then b else b + 1;
      assert r[a] == s[a'] && r[b] == s[b'];
    }
  }

  /** The order of two given positions of a strictly increasing sequence. */
  lemma IncreasingAt<T>(s: seq<T>, key: T -> int, i: nat, j: nat)
    requires IncreasingBy(s, key) && i < j < |s|
    ensures key(s[i]) < key(s[j])
  {
  }
}
