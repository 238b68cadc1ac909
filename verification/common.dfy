/**
 * Shared vocabulary for the campus-map workflow model: optional values,
 * query-snapshot documents, the JavaScript string idioms the panels rely on
 * (`s || fallback`, ASCII `toLowerCase`, `includes`), and the list
 * operations behind every query view (filter, order-by, limit).
 */
module Common {

  datatype Option<T> = None | Some(value: T)

  /** A document as a query snapshot delivers it: its id and its fields. */
  datatype Doc<K, T> = Doc(id: K, data: T)

  /** JavaScript's `s || fallback` on a string: the empty string is falsy. */
  function OrElse(s: string, fallback: string): string
  {
    if s == "" then fallback else s
  }

  // ---------------------------------------------------------------------
  // Strings
  // ---------------------------------------------------------------------

  /** `toLowerCase` restricted to ASCII letters. */
  function LowerChar(c: char): char
  {
    if 'A' <= c <= 'Z' then (c as int + 32) as char else c
  }

  function Lower(s: string): (r: string)
    ensures |r| == |s|
    ensures forall i :: 0 <= i < |s| ==> r[i] == LowerChar(s[i])
  {
    seq(|s|, i requires 0 <= i < |s| => LowerChar(s[i]))
  }

  /** `needle` occurs in `hay` starting at position `i`. */
  predicate OccursAt(hay: string, needle: string, i: nat)
  {
    i + |needle| <= |hay| && hay[i..i + |needle|] == needle
  }

  /** JavaScript's `hay.includes(needle)`. */
  function Contains(hay: string, needle: string): (b: bool)
    ensures b <==> exists i: nat :: OccursAt(hay, needle, i)
    decreases |hay|
  {
    if |needle| <= |hay| && hay[..|needle|] == needle then
      assert OccursAt(hay, needle, 0);
      true
    else if hay == [] then
      false
    else
      var rest := Contains(hay[1..], needle);
      assert forall i: nat :: OccursAt(hay[1..], needle, i) <==> OccursAt(hay, needle, i + 1) by {
        forall i: nat ensures OccursAt(hay[1..], needle, i) <==> OccursAt(hay, needle, i + 1) {
          if i + |needle| <= |hay[1..]| {
            assert hay[1..][i..i + |needle|] == hay[i + 1..i + 1 + |needle|];
          }
        }
      }
      assert !OccursAt(hay, needle, 0);
      assert (exists i: nat :: OccursAt(hay, needle, i)) ==> exists i: nat :: OccursAt(hay[1..], needle, i) by {
        if j: nat :| OccursAt(hay, needle, j) {
          assert j != 0;
          assert OccursAt(hay[1..], needle, j - 1);
        }
      }
      rest
  }

  // ---------------------------------------------------------------------
  // Filter: `Array.prototype.filter` and a query's `where` clause
  // ---------------------------------------------------------------------

  /** The elements of `s` satisfying `p`, in their order in `s`. */
  function Filter<T(!new)>(s: seq<T>, p: T -> bool): (r: seq<T>)
    ensures |r| <= |s|
    ensures forall x :: x in r <==> x in s && p(x)
    ensures forall x :: x in r ==> p(x)
    ensures multiset(r) <= multiset(s)
    decreases |s|
  {
    if s == [] then []
    else
      assert s == [s[0]] + s[1..];
      (if p(s[0]) then [s[0]] else []) + Filter(s[1..], p)
  }

  /** Filtering commutes with concatenation: filter keeps the original order. */
  lemma {:induction false} FilterAppend<T(!new)>(a: seq<T>, b: seq<T>, p: T -> bool)
    ensures Filter(a + b, p) == Filter(a, p) + Filter(b, p)
    decreases |a|
  {
    if a == [] {
      assert a + b == b;
    } else {
      assert (a + b)[0] == a[0];
      assert (a + b)[1..] == a[1..] + b;
      FilterAppend(a[1..], b, p);
    }
  }

  /** Two tests that agree on every element select the same elements. */
  lemma {:induction false} FilterCongruent<T(!new)>(s: seq<T>, p: T -> bool, q: T -> bool)
    requires forall x :: x in s ==> p(x) == q(x)
    ensures Filter(s, p) == Filter(s, q)
    decreases |s|
  {
    if s != [] {
      assert forall x :: x in s[1..] ==> x in s;
      FilterCongruent(s[1..], p, q);
      assert p(s[0]) == q(s[0]);
    }
  }

  /** Filtering a one-element extension only looks at the new element. */
  lemma FilterSnoc<T(!new)>(s: seq<T>, x: T, p: T -> bool)
    ensures Filter(s + [x], p) == Filter(s, p) + if p(x) then [x] else []
  {
    FilterAppend(s, [x], p);
    assert [x] == [x] + [];
    assert Filter([x], p) == (if p(x) then [x] else []) + Filter([], p);
  }

  // ---------------------------------------------------------------------
  // Order-by: a stable insertion sort on an integer key
  // ---------------------------------------------------------------------

  /** `s` is ordered by ascending `key`; descending orders negate the key. */
  ghost predicate SortedBy<T>(s: seq<T>, key: T -> int)
  {
    forall i, j :: 0 <= i < j < |s| ==> key(s[i]) <= key(s[j])
  }

  /** Putting an element no larger than the head in front keeps a list sorted. */
  lemma ConsSorted<T>(h: T, t: seq<T>, key: T -> int)
    requires SortedBy(t, key)
    requires t == [] || key(h) <= key(t[0])
    ensures SortedBy([h] + t, key)
  {
    forall i, j | 0 <= i < j < |[h] + t| ensures key(([h] + t)[i]) <= key(([h] + t)[j]) {
      if i == 0 {
        assert key(h) <= key(t[0]) <= key(t[j - 1]);
      }
    }
  }

  /** Inserts `x` before the first element whose key is not smaller. */
  function Insert<T(!new)>(x: T, s: seq<T>, key: T -> int): (r: seq<T>)
    requires SortedBy(s, key)
    ensures SortedBy(r, key)
    ensures multiset(r) == multiset(s) + multiset{x}
    ensures |r| == |s| + 1
    ensures r[0] == x || (s != [] && r[0] == s[0])
  {
    if s == [] || key(x) <= key(s[0]) then
      ConsSorted(x, s, key);
      [x] + s
    else
      var tail := Insert(x, s[1..], key);
      assert s == [s[0]] + s[1..];
      ConsSorted(s[0], tail, key);
      [s[0]] + tail
  }

  /** The elements of `s` reordered by ascending `key` (ties keep their order). */
  function SortBy<T(!new)>(s: seq<T>, key: T -> int): (r: seq<T>)
    ensures SortedBy(r, key)
    ensures multiset(r) == multiset(s)
    ensures |r| == |s|
    ensures forall y :: y in r <==> y in s
  {
    if s == [] then []
    else
      assert s == [s[0]] + s[1..];
      var r := Insert(s[0], SortBy(s[1..], key), key);
      assert forall y :: y in r <==> y in s by {
        forall y ensures y in r <==> y in s {
          assert y in r <==> y in multiset(r);
          assert y in s <==> y in multiset(s);
        }
      }
      r
  }

  /** The test "has key `k`", the view of a list that stability is about. */
  function HasKey<T>(key: T -> int, k: int): T -> bool
  {
    x => key(x) == k
  }

  /** Filtering a list with a head in front of it. */
  lemma FilterCons<T(!new)>(h: T, t: seq<T>, p: T -> bool)
    ensures Filter([h] + t, p) == (if p(h) then [h] else []) + Filter(t, p)
  {
    assert ([h] + t)[0] == h;
    assert ([h] + t)[1..] == t;
  }

  /** Two prefixes of which one is empty can be put in either order. */
  lemma SwapAroundEmpty<T>(a: seq<T>, b: seq<T>, f: seq<T>)
    requires a == [] || b == []
    ensures a + (b + f) == b + (a + f)
  {
    if a == [] {
      assert a + (b + f) == b + f == b + (a + f);
    } else {
      assert a + (b + f) == a + f == b + (a + f);
    }
  }

  /** Inserting `x` puts it before every element with its key that was already there. */
  lemma {:induction false} InsertStable<T(!new)>(x: T, s: seq<T>, key: T -> int, k: int)
    requires SortedBy(s, key)
    ensures Filter(Insert(x, s, key), HasKey(key, k)) == (if key(x) == k then [x] else []) + Filter(s, HasKey(key, k))
    decreases |s|
  {
    var p := HasKey(key, k);
    var b := if p(x) then [x] else [];
    if s == [] || key(x) <= key(s[0]) {
      FilterCons(x, s, p);
    } else {
      var rest := s[1..];
      var tail := Insert(x, rest, key);
      assert Insert(x, s, key) == [s[0]] + tail;
      assert s == [s[0]] + rest;
      var a := if p(s[0]) then [s[0]] else [];
      assert SortedBy(rest, key);
      InsertStable(x, rest, key, k);
      FilterCons(s[0], tail, p);
      FilterCons(s[0], rest, p);
      SwapAroundEmpty(a, b, Filter(rest, p));
    }
  }

  /** Sorting is stable: the elements sharing a key keep their relative order. */
  lemma {:induction false} SortByStable<T(!new)>(s: seq<T>, key: T -> int, k: int)
    ensures Filter(SortBy(s, key), HasKey(key, k)) == Filter(s, HasKey(key, k))
    decreases |s|
  {
    if s != [] {
      SortByStable(s[1..], key, k);
      InsertStable(s[0], SortBy(s[1..], key), key, k);
    }
  }

  // ---------------------------------------------------------------------
  // Limit
  // ---------------------------------------------------------------------

  /** A query's `limit(k)`: the first `k` elements, or all when fewer. */
  function Take<T>(s: seq<T>, k: nat): (r: seq<T>)
    ensures |r| == if |s| < k then |s| else k
    ensures r == s[..|r|]
  {
    if |s| <= k then s else s[..k]
  }

  /**
   * Limiting a sorted list keeps its smallest keys: every element left out
   * has a key no smaller than every element kept.
   */
  lemma {:induction false} TakeKeepsSmallest<T>(s: seq<T>, key: T -> int, k: nat)
    requires SortedBy(s, key)
    ensures SortedBy(Take(s, k), key)
    ensures multiset(Take(s, k)) <= multiset(s)
    ensures forall x, y :: x in multiset(s) - multiset(Take(s, k)) && y in Take(s, k) ==> key(y) <= key(x)
  {
    var t := Take(s, k);
    var n := |t|;
    var rest := s[n..];
    assert s == t + rest;
    assert multiset(s) == multiset(t) + multiset(rest);
    assert SortedBy(t, key) by {
      forall i, j | 0 <= i < j < n ensures key(t[i]) <= key(t[j]) {
        assert t[i] == s[i] && t[j] == s[j];
      }
    }
    forall x, y | x in multiset(s) - multiset(t) && y in t
      ensures key(y) <= key(x)
    {
      assert x in multiset(rest);
      var j :| 0 <= j < |rest| && rest[j] == x;
      var i :| 0 <= i < n && t[i] == y;
      assert s[i] == y && s[n + j] == x;
    }
  }

  // ---------------------------------------------------------------------
  // Snapshots of a collection
  // ---------------------------------------------------------------------

  /** `rows` lists every document of `m` exactly once and nothing else. */
  ghost predicate Lists<K, T>(rows: seq<Doc<K, T>>, m: map<K, T>)
  {
    && (forall i, j :: 0 <= i < j < |rows| ==> rows[i].id != rows[j].id)
    && (forall r :: r in rows ==> r.id in m && m[r.id] == r.data)
    && (forall k :: k in m ==> Doc(k, m[k]) in rows)
  }

  /** The documents of `m` with ids below `n`, in ascending id order. */
  function Rows<T>(m: map<nat, T>, n: nat): (rows: seq<Doc<nat, T>>)
    ensures forall i, j :: 0 <= i < j < |rows| ==> rows[i].id < rows[j].id
    ensures forall r :: r in rows ==> r.id < n && r.id in m && m[r.id] == r.data
    ensures forall k :: k in m && k < n ==> Doc(k, m[k]) in rows
  {
    if n == 0 then []
    else Rows(m, n - 1) + if n - 1 in m then [Doc(n - 1, m[n - 1])] else []
  }

  /** When every id of `m` is below `n`, `Rows(m, n)` is a snapshot of `m`. */
  lemma RowsLists<T>(m: map<nat, T>, n: nat)
    requires forall k :: k in m ==> k < n
    ensures Lists(Rows(m, n), m)
  {
  }
}
