/**
 * Lists of records keyed by an id, as the pages keep them in React state and
 * rewrite them with `some`, `map` and `filter`: the feed's live INSERT /
 * UPDATE / DELETE updaters, unsaving a post, and dropping an answered friend
 * request. `key` picks the id out of a record.
 */
module Keyed {

  /** The ids of `s`, in order. */
  function Keys<T, K>(s: seq<T>, key: T -> K): (r: seq<K>)
    ensures |r| == |s| && forall i :: 0 <= i < |s| ==> r[i] == key(s[i])
  {
    seq(|s|, i requires 0 <= i < |s| => key(s[i]))
  }

  /** `s.some(x => key(x) === k)`. */
  predicate HasKey<T, K(==)>(s: seq<T>, key: T -> K, k: K) {
    exists i :: 0 <= i < |s| && key(s[i]) == k
  }

  /** No id occurs twice in `s`. */
  predicate DistinctKeys<T, K(==)>(s: seq<T>, key: T -> K) {
    forall i, j :: 0 <= i < j < |s| ==> key(s[i]) != key(s[j])
  }

  // ------------------------------------------------------------ prepend

  /** `s.some(same id) ? s : [x, ...s]`: a record whose id is new goes to the front. */
  function PrependIfNew<T, K(==)>(s: seq<T>, key: T -> K, x: T): (r: seq<T>)
    ensures HasKey(s, key, key(x)) ==> r == s
    ensures !HasKey(s, key, key(x)) ==> r == [x] + s && r[0] == x && r[1..] == s
    ensures HasKey(r, key, key(x))
  {
    if HasKey(s, key, key(x)) then s else [x] + s
  }

  /** Prepending keeps the ids distinct. */
  lemma PrependKeepsDistinct<T, K>(s: seq<T>, key: T -> K, x: T)
    requires DistinctKeys(s, key)
    ensures DistinctKeys(PrependIfNew(s, key, x), key)
  {
    var r := PrependIfNew(s, key, x);
    if !HasKey(s, key, key(x)) {
      forall i, j | 0 <= i < j < |r| ensures key(r[i]) != key(r[j]) {
        if i == 0 {
          assert r[j] == s[j - 1];
        } else {
          assert r[i] == s[i - 1] && r[j] == s[j - 1];
        }
      }
    }
  }

  /** A second arrival of the same record changes nothing. */
  lemma PrependIdempotent<T, K>(s: seq<T>, key: T -> K, x: T)
    ensures PrependIfNew(PrependIfNew(s, key, x), key, x) == PrependIfNew(s, key, x)
  {
  }

  // ------------------------------------------------------------ replace

  /** `s.map(e => key(e) === key(x) ? x : e)`. */
  function ReplaceByKey<T, K(==)>(s: seq<T>, key: T -> K, x: T): (r: seq<T>)
    ensures |r| == |s|
    ensures forall i :: 0 <= i < |s| ==> r[i] == if key(s[i]) == key(x) then x else s[i]
  {
    if s == [] then []
    else [if key(s[0]) == key(x) then x else s[0]] + ReplaceByKey(s[1..], key, x)
  }

  /** Replacing keeps the id sequence, so it keeps the length, the order and distinctness. */
  lemma ReplaceKeepsKeys<T, K>(s: seq<T>, key: T -> K, x: T)
    ensures Keys(ReplaceByKey(s, key, x), key) == Keys(s, key)
    ensures DistinctKeys(s, key) ==> DistinctKeys(ReplaceByKey(s, key, x), key)
  {
  }

  /** A replacement whose id is not in the list changes nothing. */
  lemma ReplaceAbsent<T, K>(s: seq<T>, key: T -> K, x: T)
    requires !HasKey(s, key, key(x))
    ensures ReplaceByKey(s, key, x) == s
  {
    var r := ReplaceByKey(s, key, x);
    forall i | 0 <= i < |s| ensures r[i] == s[i] {
      assert key(s[i]) != key(x);
    }
  }

  /** Replacing twice with the same record is replacing once. */
  lemma ReplaceIdempotent<T, K>(s: seq<T>, key: T -> K, x: T)
    ensures ReplaceByKey(ReplaceByKey(s, key, x), key, x) == ReplaceByKey(s, key, x)
  {
  }

  // ------------------------------------------------------------- remove

  /** `s.filter(e => key(e) !== k)`. */
  function RemoveByKey<T, K(==)>(s: seq<T>, key: T -> K, k: K): (r: seq<T>)
    ensures |r| <= |s|
    ensures forall i :: 0 <= i < |r| ==> r[i] in s && key(r[i]) != k
    ensures forall i :: 0 <= i < |s| && key(s[i]) != k ==> s[i] in r
    ensures !HasKey(r, key, k)
  {
    if s == [] then []
    else if key(s[0]) == k then RemoveByKey(s[1..], key, k)
    else [s[0]] + RemoveByKey(s[1..], key, k)
  }

  /** Removal works piece by piece, so the records that stay keep their relative order. */
  lemma {:induction false} RemoveConcat<T, K>(a: seq<T>, b: seq<T>, key: T -> K, k: K)
    ensures RemoveByKey(a + b, key, k) == RemoveByKey(a, key, k) + RemoveByKey(b, key, k)
  {
    if a != [] {
      assert (a + b)[1..] == a[1..] + b;
      RemoveConcat(a[1..], b, key, k);
    } else {
      assert a + b == b;
    }
  }

  /** Removing an id that is not in the list changes nothing. */
  lemma {:induction false} RemoveAbsent<T, K>(s: seq<T>, key: T -> K, k: K)
    requires !HasKey(s, key, k)
    ensures RemoveByKey(s, key, k) == s
  {
    if s != [] {
      assert key(s[0]) != k;
      RemoveAbsent(s[1..], key, k);
    }
  }

  /** Removal keeps the ids distinct. */
  lemma {:induction false} RemoveKeepsDistinct<T, K>(s: seq<T>, key: T -> K, k: K)
    requires DistinctKeys(s, key)
    ensures DistinctKeys(RemoveByKey(s, key, k), key)
  {
    if s != [] {
      var tail := s[1..];
      assert DistinctKeys(tail, key) by {
        forall i, j | 0 <= i < j < |tail| ensures key(tail[i]) != key(tail[j]) {
          assert tail[i] == s[i + 1] && tail[j] == s[j + 1];
        }
      }
      RemoveKeepsDistinct(tail, key, k);
      var rt := RemoveByKey(tail, key, k);
      if key(s[0]) != k {
        var r := [s[0]] + rt;
        forall i, j | 0 <= i < j < |r| ensures key(r[i]) != key(r[j]) {
          if i == 0 {
            assert r[j] in tail;
            var m :| 0 <= m < |tail| && tail[m] == r[j];
            assert s[m + 1] == r[j];
          } else {
            assert r[i] == rt[i - 1] && r[j] == rt[j - 1];
          }
        }
      }
    }
  }

  /** In a list with distinct ids, removing an id that is listed drops exactly one record. */
  lemma {:induction false} RemoveListedDistinct<T, K>(s: seq<T>, key: T -> K, k: K)
    requires DistinctKeys(s, key) && HasKey(s, key, k)
    ensures |RemoveByKey(s, key, k)| == |s| - 1
  {
    var tail := s[1..];
    assert DistinctKeys(tail, key) by {
      forall i, j | 0 <= i < j < |tail| ensures key(tail[i]) != key(tail[j]) {
        assert tail[i] == s[i + 1] && tail[j] == s[j + 1];
      }
    }
    if key(s[0]) == k {
      assert !HasKey(tail, key, k) by {
        forall i | 0 <= i < |tail| ensures key(tail[i]) != k {
          assert tail[i] == s[i + 1];
        }
      }
      RemoveAbsent(tail, key, k);
    } else {
      var m :| 0 <= m < |s| && key(s[m]) == k;
      assert tail[m - 1] == s[m];
      RemoveListedDistinct(tail, key, k);
    }
  }

  /** Adding a record whose id is new and then removing that id gives back the list. */
  lemma PrependThenRemove<T, K>(s: seq<T>, key: T -> K, x: T)
    requires !HasKey(s, key, key(x))
    ensures RemoveByKey(PrependIfNew(s, key, x), key, key(x)) == s
  {
    assert ([x] + s)[1..] == s;
    RemoveAbsent(s, key, key(x));
  }
}
