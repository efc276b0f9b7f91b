/**
 * `Array.prototype.sort` with a comparator that orders by a string key
 * (`(a, b) => a.name.localeCompare(b.name)`, and the default comparator of
 * `sort()` on strings). The ECMAScript sort is stable; it is modelled here
 * by a stable insertion sort, whose result is proved ordered and a
 * permutation of its input.
 */
module JsSort {
  import opened JsValues

  /** Every earlier element's key is at most every later element's key. */
  predicate SortedBy<T>(s: seq<T>, key: T -> string) {
    forall i, j :: 0 <= i < j < |s| ==> StrLeq(key(s[i]), key(s[j]))
  }

  /** Places `x` before the first element whose key is not smaller, so `x` precedes its equals. */
  function InsertBy<T>(x: T, s: seq<T>, key: T -> string): (r: seq<T>)
    requires SortedBy(s, key)
    ensures SortedBy(r, key)
    ensures multiset(r) == multiset(s) + multiset{x}
    decreases |s|
  {
    if s == [] then [x]
    else if StrLeq(key(x), key(s[0])) then
      InsertFrontSorted(x, s, key);
      [x] + s
    else
      StrLeqTotal(key(x), key(s[0]));
      var rest := InsertBy(x, s[1..], key);
      assert s == [s[0]] + s[1..];
      InsertAfterHeadSorted(s[0], rest, s[1..], x, key);
      [s[0]] + rest
  }

  lemma InsertFrontSorted<T>(x: T, s: seq<T>, key: T -> string)
    requires SortedBy(s, key) && |s| > 0 && StrLeq(key(x), key(s[0]))
    ensures SortedBy([x] + s, key)
  {
    forall j | 0 < j < |s| + 1
      ensures StrLeq(key(([x] + s)[0]), key(([x] + s)[j]))
    {
      if j > 1 {
        StrLeqTransitive(key(x), key(s[0]), key(s[j - 1]));
      }
    }
  }

  lemma InsertAfterHeadSorted<T>(h: T, rest: seq<T>, tail: seq<T>, x: T, key: T -> string)
    requires SortedBy(rest, key) && SortedBy([h] + tail, key)
    requires multiset(rest) == multiset(tail) + multiset{x}
    requires StrLeq(key(h), key(x))
    ensures SortedBy([h] + rest, key)
  {
    forall j | 0 <= j < |rest|
      ensures StrLeq(key(h), key(rest[j]))
    {
      assert rest[j] in multiset(rest);
      if rest[j] != x {
        assert rest[j] in multiset(tail);
        var k :| 0 <= k < |tail| && tail[k] == rest[j];
        assert ([h] + tail)[0] == h && ([h] + tail)[k + 1] == tail[k];
      }
    }
    forall i, j | 0 <= i < j < |rest| + 1
      ensures StrLeq(key(([h] + rest)[i]), key(([h] + rest)[j]))
    {
      if i > 0 {
        assert ([h] + rest)[i] == rest[i - 1];
      }
    }
  }

  /** A stable sort of `s` by `key`: insert the head into the sorted tail. */
  function SortBy<T>(s: seq<T>, key: T -> string): (r: seq<T>)
    ensures SortedBy(r, key)
    ensures multiset(r) == multiset(s)
    decreases |s|
  {
    if s == [] then []
    else
      assert s == [s[0]] + s[1..];
      InsertBy(s[0], SortBy(s[1..], key), key)
  }

  /** The elements whose key is `k`, in order. */
  function WithKey<T>(s: seq<T>, key: T -> string, k: string): seq<T>
    decreases |s|
  {
    if s == [] then []
    else (if key(s[0]) == k then [s[0]] else []) + WithKey(s[1..], key, k)
  }

  lemma WithKeyCons<T>(x: T, s: seq<T>, key: T -> string, k: string)
    ensures WithKey([x] + s, key, k) == (if key(x) == k then [x] else []) + WithKey(s, key, k)
  {
    assert ([x] + s)[1..] == s;
  }

  /** Inserting `x` puts it in front of the elements with its key and moves no other element past another. */
  lemma {:induction false} InsertByWithKey<T>(x: T, s: seq<T>, key: T -> string, k: string)
    requires SortedBy(s, key)
    ensures WithKey(InsertBy(x, s, key), key, k) == (if key(x) == k then [x] else []) + WithKey(s, key, k)
    decreases |s|
  {
    if s == [] || StrLeq(key(x), key(s[0])) {
      WithKeyCons(x, s, key, k);
    } else {
      var tail := s[1..];
      SortedTail(s, key);
      InsertByWithKey(x, tail, key, k);
      InsertPastHead(x, s, key, k);
    }
  }

  lemma SortedTail<T>(s: seq<T>, key: T -> string)
    requires SortedBy(s, key) && s != []
    ensures SortedBy(s[1..], key)
  {
    var tail := s[1..];
    forall i, j | 0 <= i < j < |tail|
      ensures StrLeq(key(tail[i]), key(tail[j]))
    {
      assert tail[i] == s[i + 1] && tail[j] == s[j + 1];
    }
  }

  /** When `x` goes past the head, the head has another key, so the two never swap within a key. */
  lemma InsertPastHead<T>(x: T, s: seq<T>, key: T -> string, k: string)
    requires SortedBy(s, key) && s != [] && !StrLeq(key(x), key(s[0]))
    requires SortedBy(s[1..], key)
    requires WithKey(InsertBy(x, s[1..], key), key, k) == (if key(x) == k then [x] else []) + WithKey(s[1..], key, k)
    ensures WithKey(InsertBy(x, s, key), key, k) == (if key(x) == k then [x] else []) + WithKey(s, key, k)
  {
    StrLeqTotal(key(x), key(x));
    var rest := InsertBy(x, s[1..], key);
    assert InsertBy(x, s, key) == [s[0]] + rest;
    WithKeyCons(s[0], rest, key, k);
    assert s == [s[0]] + s[1..];
    WithKeyCons(s[0], s[1..], key, k);
    if key(x) == k {
      assert key(s[0]) != k;
      assert WithKey([s[0]] + rest, key, k) == WithKey(rest, key, k);
      assert WithKey(s, key, k) == WithKey(s[1..], key, k);
    } else {
      assert WithKey(rest, key, k) == WithKey(s[1..], key, k);
    }
  }

  /**
   * The sort is stable: the elements with key `k` appear in the same order
   * before and after sorting.
   */
  lemma {:induction false} SortByStable<T>(s: seq<T>, key: T -> string, k: string)
    ensures WithKey(SortBy(s, key), key, k) == WithKey(s, key, k)
    decreases |s|
  {
    if s != [] {
      var sortedTail := SortBy(s[1..], key);
      SortByStable(s[1..], key, k);
      assert SortBy(s, key) == InsertBy(s[0], sortedTail, key);
      InsertByWithKey(s[0], sortedTail, key, k);
      assert s == [s[0]] + s[1..];
      WithKeyCons(s[0], s[1..], key, k);
    }
  }
}
