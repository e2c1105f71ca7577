/**
 * The array filter the application uses everywhere: keep, in their original
 * order, exactly the elements that satisfy a predicate.
 */
module Filtering {

  /**
   * `sub` can be obtained from `s` by deleting elements. Matching each element of
   * `sub` against the leftmost possible element of `s` is complete, so this
   * greedy definition is the usual notion of subsequence.
   */
  ghost predicate IsSubsequence<T(!new)>(sub: seq<T>, s: seq<T>)
    decreases |s|
  {
    if sub == [] then true
    else if s == [] then false
    else if sub[0] == s[0] then IsSubsequence(sub[1..], s[1..])
    else IsSubsequence(sub, s[1..])
  }

  /** The elements of `s` that satisfy `p`, in order. */
  function Filter<T(==,!new)>(s: seq<T>, p: T -> bool): (r: seq<T>)
    ensures |r| <= |s|
    ensures forall x :: x in r <==> x in s && p(x)
    ensures forall x :: multiset(r)[x] == if p(x) then multiset(s)[x] else 0
    ensures IsSubsequence(r, s)
  {
    if s == [] then []
    else if p(s[0]) then
      assert s == [s[0]] + s[1..];
      [s[0]] + Filter(s[1..], p)
    else
      var rest := Filter(s[1..], p);
      assert s == [s[0]] + s[1..];
      assert rest != [] ==> rest[0] in rest && rest[0] != s[0];
      rest
  }

  /** The elements whose key equals `k` (`s.filter(x => key(x) === k)`). */
  function Select<T(==,!new), K(==)>(s: seq<T>, key: T -> K, k: K): (r: seq<T>)
    ensures IsSubsequence(r, s)
    ensures forall x :: x in r <==> x in s && key(x) == k
    ensures forall x :: multiset(r)[x] == if key(x) == k then multiset(s)[x] else 0
  {
    Filter(s, x => key(x) == k)
  }

  /** The elements whose key differs from `k` (`s.filter(x => key(x) !== k)`). */
  function RemoveKey<T(==,!new), K(==)>(s: seq<T>, key: T -> K, k: K): (r: seq<T>)
    ensures IsSubsequence(r, s)
    ensures forall x :: x in r <==> x in s && key(x) != k
    ensures forall x :: multiset(r)[x] == if key(x) != k then multiset(s)[x] else 0
  {
    Filter(s, x => key(x) != k)
  }

  /** No two positions of `s` carry the same key. */
  ghost predicate DistinctKeys<T(!new), K>(s: seq<T>, key: T -> K) {
    forall i, j :: 0 <= i < j < |s| ==> key(s[i]) != key(s[j])
  }

  /** The keys occurring in `s`. */
  function Keys<T, K>(s: seq<T>, key: T -> K): (r: set<K>)
    ensures forall i :: 0 <= i < |s| ==> key(s[i]) in r
    ensures forall k :: k in r ==> exists i :: 0 <= i < |s| && key(s[i]) == k
  {
    set i | 0 <= i < |s| :: key(s[i])
  }

  /** One step of the filter that drops key `k`. */
  lemma RemoveKeyCons<T(!new), K>(s: seq<T>, key: T -> K, k: K)
    requires s != []
    ensures RemoveKey(s, key, k) == (if key(s[0]) != k then [s[0]] else []) + RemoveKey(s[1..], key, k)
  {
  }

  /** Removing a key that does not occur changes nothing. */
  lemma {:induction false} RemoveAbsentKey<T(!new), K>(s: seq<T>, key: T -> K, k: K)
    requires forall j :: 0 <= j < |s| ==> key(s[j]) != k
    ensures RemoveKey(s, key, k) == s
  {
    if s != [] {
      RemoveAbsentKey(s[1..], key, k);
      RemoveKeyCons(s, key, k);
      assert s == [s[0]] + s[1..];
    }
  }

  /** Removing a key twice is the same as removing it once. */
  lemma RemoveKeyTwice<T(!new), K>(s: seq<T>, key: T -> K, k: K)
    ensures RemoveKey(RemoveKey(s, key, k), key, k) == RemoveKey(s, key, k)
  {
    var once := RemoveKey(s, key, k);
    forall j | 0 <= j < |once| ensures key(once[j]) != k {
      assert once[j] in once;
    }
    RemoveAbsentKey(once, key, k);
  }

  /**
   * When keys are distinct and position `i` carries `k`, removing `k` deletes
   * exactly that position and keeps the rest in order.
   */
  lemma {:induction false} RemoveDistinctKey<T(!new), K>(s: seq<T>, key: T -> K, k: K, i: nat)
    requires DistinctKeys(s, key)
    requires i < |s| && key(s[i]) == k
    ensures RemoveKey(s, key, k) == s[..i] + s[i + 1..]
    ensures |RemoveKey(s, key, k)| == |s| - 1
  {
    var rest := s[1..];
    RemoveKeyCons(s, key, k);
    TailDistinct(s, key);
    if i == 0 {
      forall j | 0 <= j < |rest| ensures key(rest[j]) != k {
        assert key(s[0]) != key(s[j + 1]);
      }
      RemoveAbsentKey(rest, key, k);
      assert s[..0] + s[1..] == rest;
    } else {
      assert key(s[0]) != key(s[i]);
      RemoveDistinctKey(rest, key, k, i - 1);
      assert RemoveKey(s, key, k) == [s[0]] + (rest[..i - 1] + rest[i..]);
      SpliceHead(s, i);
    }
  }

  lemma SpliceHead<T>(s: seq<T>, i: nat)
    requires 0 < i < |s|
    ensures [s[0]] + (s[1..][..i - 1] + s[1..][i..]) == s[..i] + s[i + 1..]
  {
  }

  /** Dropping the head keeps keys distinct. */
  lemma TailDistinct<T(!new), K>(s: seq<T>, key: T -> K)
    requires s != [] && DistinctKeys(s, key)
    ensures DistinctKeys(s[1..], key)
  {
    var rest := s[1..];
    forall a, b | 0 <= a < b < |rest| ensures key(rest[a]) != key(rest[b]) {
      assert rest[a] == s[a + 1] && rest[b] == s[b + 1];
    }
  }

  /** Every element of a subsequence occurs in the whole sequence. */
  lemma {:induction false} SubsequenceMembers<T(!new)>(sub: seq<T>, s: seq<T>)
    requires IsSubsequence(sub, s)
    ensures forall x :: x in sub ==> x in s
    decreases |s|
  {
    if sub != [] && s != [] {
      if sub[0] == s[0] {
        SubsequenceMembers(sub[1..], s[1..]);
        assert sub == [sub[0]] + sub[1..];
      } else {
        SubsequenceMembers(sub, s[1..]);
      }
    }
  }

  /** A subsequence of a sequence with distinct keys has distinct keys. */
  lemma {:induction false} SubsequenceKeepsDistinct<T(!new), K>(sub: seq<T>, s: seq<T>, key: T -> K)
    requires IsSubsequence(sub, s) && DistinctKeys(s, key)
    ensures DistinctKeys(sub, key)
    decreases |s|
  {
    if sub != [] && s != [] {
      TailDistinct(s, key);
      if sub[0] == s[0] {
        var tail := sub[1..];
        SubsequenceKeepsDistinct(tail, s[1..], key);
        SubsequenceMembers(tail, s[1..]);
        forall a, b | 0 <= a < b < |sub| ensures key(sub[a]) != key(sub[b]) {
          assert sub[b] == tail[b - 1];
          if a == 0 {
            assert sub[b] in s[1..];
            var j :| 0 <= j < |s[1..]| && s[1..][j] == sub[b];
            assert s[j + 1] == sub[b];
          } else {
            assert sub[a] == tail[a - 1];
          }
        }
      } else {
        SubsequenceKeepsDistinct(sub, s[1..], key);
      }
    }
  }

  /**
   * What removing a key does to a keyed list: nothing when the key is absent,
   * exactly one element fewer when keys are distinct and the key is present,
   * and distinct keys stay distinct.
   */
  lemma RemoveKeyFacts<T(!new), K>(s: seq<T>, key: T -> K, k: K)
    ensures k !in Keys(s, key) ==> RemoveKey(s, key, k) == s
    ensures DistinctKeys(s, key) && k in Keys(s, key) ==> |RemoveKey(s, key, k)| == |s| - 1
    ensures DistinctKeys(s, key) ==> DistinctKeys(RemoveKey(s, key, k), key)
  {
    if k !in Keys(s, key) {
      RemoveAbsentKey(s, key, k);
    } else if DistinctKeys(s, key) {
      var i :| 0 <= i < |s| && key(s[i]) == k;
      RemoveDistinctKey(s, key, k, i);
    }
    if DistinctKeys(s, key) {
      SubsequenceKeepsDistinct(RemoveKey(s, key, k), s, key);
    }
  }

  /** Appending an element whose key is new keeps keys distinct. */
  lemma AppendFreshKey<T(!new), K>(s: seq<T>, x: T, key: T -> K)
    requires DistinctKeys(s, key)
    requires key(x) !in Keys(s, key)
    ensures DistinctKeys(s + [x], key)
  {
    var r := s + [x];
    forall a, b | 0 <= a < b < |r| ensures key(r[a]) != key(r[b]) {
      assert r[a] == s[a];
      if b < |s| { assert r[b] == s[b]; }
    }
  }
}
