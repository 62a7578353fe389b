/** Rust's `sort_by_key` (a stable sort) over string keys, and the
    subsequence filters its contract is stated with. */
module Sorting {
  import opened Strings

  /** The elements of `s` satisfying `p`, in their original order. */
  function Filter<T>(s: seq<T>, p: T -> bool): seq<T>
  {
    if |s| == 0 then []
    else if p(s[0]) then [s[0]] + Filter(s[1..], p)
    else Filter(s[1..], p)
  }

  /** `[x]` when `c` holds, otherwise nothing. */
  function When<T>(c: bool, x: T): seq<T>
  {
    if c then [x] else []
  }

  lemma FilterSingle<T>(x: T, p: T -> bool)
    ensures Filter([x], p) == When(p(x), x)
  {
    assert [x][1..] == [];
  }

  lemma {:induction false} FilterAppend<T>(a: seq<T>, b: seq<T>, p: T -> bool)
    ensures Filter(a + b, p) == Filter(a, p) + Filter(b, p)
  {
    if |a| == 0 {
      assert a + b == b;
    } else {
      assert (a + b)[1..] == a[1..] + b;
      FilterAppend(a[1..], b, p);
    }
  }

  /** Filtering depends only on the predicate's values on the list. */
  lemma {:induction false} FilterCongruent<T>(s: seq<T>, p: T -> bool, q: T -> bool)
    requires forall i :: 0 <= i < |s| ==> p(s[i]) == q(s[i])
    ensures Filter(s, p) == Filter(s, q)
  {
    if |s| > 0 {
      assert forall i :: 0 <= i < |s[1..]| ==> s[1..][i] == s[i + 1];
      FilterCongruent(s[1..], p, q);
    }
  }

  /** Filter over a five-element list, split into singletons. */
  lemma FilterFive<T>(a: T, b: T, c: T, d: T, e: T, p: T -> bool)
    ensures Filter([a, b, c, d, e], p)
         == When(p(a), a) + (When(p(b), b) + (When(p(c), c) + (When(p(d), d) + When(p(e), e))))
  {
    assert [a, b, c, d, e] == [a] + ([b] + ([c] + ([d] + [e])));
    FilterAppend([a], [b] + ([c] + ([d] + [e])), p);
    FilterAppend([b], [c] + ([d] + [e]), p);
    FilterAppend([c], [d] + [e], p);
    FilterAppend([d], [e], p);
    FilterSingle(a, p);
    FilterSingle(b, p);
    FilterSingle(c, p);
    FilterSingle(d, p);
    FilterSingle(e, p);
  }

  lemma FilterSix<T>(a: T, b: T, c: T, d: T, e: T, f: T, p: T -> bool)
    ensures Filter([a, b, c, d, e, f], p)
         == When(p(a), a) + (When(p(b), b) + (When(p(c), c) + (When(p(d), d) + (When(p(e), e) + When(p(f), f)))))
  {
    assert [a, b, c, d, e, f] == [a] + [b, c, d, e, f];
    FilterAppend([a], [b, c, d, e, f], p);
    FilterSingle(a, p);
    FilterFive(b, c, d, e, f, p);
  }

  /** The elements of `s` whose key is `k`, in their original order. */
  function KeyFilter<T>(s: seq<T>, key: T -> string, k: string): seq<T>
  {
    if |s| == 0 then []
    else if key(s[0]) == k then [s[0]] + KeyFilter(s[1..], key, k)
    else KeyFilter(s[1..], key, k)
  }

  /** Keys never decrease from one element to any later one. */
  ghost predicate SortedBy<T>(s: seq<T>, key: T -> string)
  {
    forall i, j :: 0 <= i < j < |s| ==> LexLe(key(s[i]), key(s[j]))
  }

  /** Places `x` in front of the first element whose key is not below it,
      so that `x` precedes every element with an equal key. */
  function Insert<T>(x: T, t: seq<T>, key: T -> string): (r: seq<T>)
    requires SortedBy(t, key)
    ensures SortedBy(r, key)
    ensures multiset(r) == multiset([x] + t)
    ensures forall k {:trigger KeyFilter(r, key, k)} ::
      KeyFilter(r, key, k) == if key(x) == k then [x] + KeyFilter(t, key, k) else KeyFilter(t, key, k)
  {
    if |t| == 0 || LexLe(key(x), key(t[0])) then
      var r := [x] + t;
      forall j | 0 <= j < |t| ensures LexLe(key(x), key(t[j])) {
        if j > 0 { LexLeTransitive(key(x), key(t[0]), key(t[j])); }
      }
      ConsSorted(x, t, key);
      assert r[1..] == t;
      r
    else
      var rest := Insert(x, t[1..], key);
      var r := [t[0]] + rest;
      LexLeTotal(key(x), key(t[0]));
      InsertBound(x, t, rest, key);
      ConsSorted(t[0], rest, key);
      assert r[1..] == rest;
      assert t == [t[0]] + t[1..];
      forall k ensures KeyFilter(r, key, k) == if key(x) == k then [x] + KeyFilter(t, key, k) else KeyFilter(t, key, k) {
        if key(t[0]) == k && key(x) == k {
          assert false;
        }
      }
      r
  }

  lemma ConsSorted<T>(a: T, rest: seq<T>, key: T -> string)
    requires SortedBy(rest, key)
    requires forall j :: 0 <= j < |rest| ==> LexLe(key(a), key(rest[j]))
    ensures SortedBy([a] + rest, key)
  {
    var r := [a] + rest;
    forall i, j | 0 <= i < j < |r| ensures LexLe(key(r[i]), key(r[j])) {
      assert r[j] == rest[j - 1];
      if i > 0 { assert r[i] == rest[i - 1]; }
    }
  }

  /** Every element of the recursive insertion's result is at least the
      head that stays in front of it. */
  lemma InsertBound<T>(x: T, t: seq<T>, rest: seq<T>, key: T -> string)
    requires SortedBy(t, key) && |t| > 0 && LexLe(key(t[0]), key(x))
    requires multiset(rest) == multiset([x] + t[1..])
    ensures forall j :: 0 <= j < |rest| ==> LexLe(key(t[0]), key(rest[j]))
  {
    forall j | 0 <= j < |rest| ensures LexLe(key(t[0]), key(rest[j])) {
      assert rest[j] in multiset(rest);
      assert rest[j] in [x] + t[1..];
      if rest[j] != x {
        var m :| 0 <= m < |t[1..]| && t[1..][m] == rest[j];
        assert t[m + 1] == rest[j];
      }
    }
  }

  /** Stable insertion sort by key: the model of `sort_by_key`. */
  function SortByKey<T>(s: seq<T>, key: T -> string): (r: seq<T>)
    ensures SortedBy(r, key)
    ensures multiset(r) == multiset(s)
    ensures forall k {:trigger KeyFilter(r, key, k)} :: KeyFilter(r, key, k) == KeyFilter(s, key, k)
  {
    if |s| == 0 then []
    else
      assert s == [s[0]] + s[1..];
      Insert(s[0], SortByKey(s[1..], key), key)
  }
}
