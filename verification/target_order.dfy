/** The target part of `render_manifest` (src/main.rs:179-226): targets are
    bucketed by kind and written library first, then binaries, examples,
    tests and benches, each bucket in manifest order. */
module TargetOrder {
  import opened Wrappers
  import opened Sorting
  import opened ManifestModel
  import opened TargetTables

  /** The bucket a kind falls in, in the order buckets are written; build
      scripts form no bucket. */
  function Rank(k: TargetKind): nat
  {
    match k
    case Lib(_) => 0
    case Bin => 1
    case ExampleLib(_) => 2
    case ExampleBin => 2
    case Test => 3
    case Bench => 4
    case CustomBuild => 5
  }

  function InBucket(r: nat): Target -> bool
  {
    (t: Target) => Rank(t.kind) == r
  }

  /** The last target satisfying `p`: what a loop assigning `Some(target)`
      on each match leaves behind. */
  function Last(ts: seq<Target>, p: Target -> bool): (r: Option<Target>)
    ensures r.Some? ==> p(r.value) && r.value in ts
    ensures r.None? <==> forall i :: 0 <= i < |ts| ==> !p(ts[i])
    ensures r.Some? ==> exists i :: 0 <= i < |ts| && ts[i] == r.value
                          && forall j :: i < j < |ts| ==> !p(ts[j])
  {
    if |ts| == 0 then None
    else if p(ts[|ts| - 1]) then Some(ts[|ts| - 1])
    else
      var r := Last(ts[..|ts| - 1], p);
      assert forall i :: 0 <= i < |ts| - 1 ==> ts[..|ts| - 1][i] == ts[i];
      r
  }

  function LibPart(ts: seq<Target>): seq<Target>
  {
    match Last(ts, InBucket(0))
    case None => []
    case Some(lib) => [lib]
  }

  /** The targets whose tables are written, in the order written. */
  function RenderedTargets(ts: seq<Target>): seq<Target>
  {
    LibPart(ts) + (Filter(ts, InBucket(1)) + (Filter(ts, InBucket(2))
    + (Filter(ts, InBucket(3)) + Filter(ts, InBucket(4)))))
  }

  function TargetsText(packageName: string, ts: seq<Target>): string
    requires forall i :: 0 <= i < |ts| ==> !ts[i].kind.CustomBuild?
  {
    if |ts| == 0 then "" else RenderTarget(packageName, ts[0]) + TargetsText(packageName, ts[1..])
  }

  // ---------------------------------------------------------------------

  lemma {:induction false} FilterSatisfies<T>(s: seq<T>, p: T -> bool)
    ensures forall i :: 0 <= i < |Filter(s, p)| ==> p(Filter(s, p)[i])
  {
    if |s| > 0 {
      FilterSatisfies(s[1..], p);
      var f := Filter(s[1..], p);
      if p(s[0]) {
        assert forall i :: 0 < i < |[s[0]] + f| ==> ([s[0]] + f)[i] == f[i - 1];
      }
    }
  }

  lemma {:induction false} FilterCount<T>(s: seq<T>, p: T -> bool, x: T)
    ensures multiset(Filter(s, p))[x] == if p(x) then multiset(s)[x] else 0
  {
    if |s| > 0 {
      FilterCount(s[1..], p, x);
      assert s == [s[0]] + s[1..];
    }
  }

  /** Filtering an already-filtered bucket by its own test changes nothing,
      and by another bucket's test leaves nothing. */
  lemma {:induction false} FilterBucket(s: seq<Target>, r: nat, q: nat)
    ensures Filter(Filter(s, InBucket(r)), InBucket(q)) == if r == q then Filter(s, InBucket(r)) else []
  {
    if |s| > 0 {
      FilterBucket(s[1..], r, q);
      if Rank(s[0].kind) == r {
        assert ([s[0]] + Filter(s[1..], InBucket(r)))[1..] == Filter(s[1..], InBucket(r));
      }
    }
  }

  /** Bucket `q` of the written order is bucket `q` of the manifest. */
  lemma BucketsKeepOrder(ts: seq<Target>, q: nat)
    requires 1 <= q <= 4
    ensures Filter(RenderedTargets(ts), InBucket(q)) == Filter(ts, InBucket(q))
  {
    var b1 := Filter(ts, InBucket(1));
    var b2 := Filter(ts, InBucket(2));
    var b3 := Filter(ts, InBucket(3));
    var b4 := Filter(ts, InBucket(4));
    var p := InBucket(q);
    assert Filter(RenderedTargets(ts), p)
        == Filter(LibPart(ts), p) + (Filter(b1, p) + (Filter(b2, p) + (Filter(b3, p) + Filter(b4, p)))) by {
      FilterAppend(LibPart(ts), b1 + (b2 + (b3 + b4)), p);
      FilterAppend(b1, b2 + (b3 + b4), p);
      FilterAppend(b2, b3 + b4, p);
      FilterAppend(b3, b4, p);
    }
    LibPartOutside(ts, q);
    FilterBucket(ts, 1, q);
    FilterBucket(ts, 2, q);
    FilterBucket(ts, 3, q);
    FilterBucket(ts, 4, q);
    var f := Filter(ts, p);
    if q == 1 {
      assert [] + (f + ([] + ([] + []))) == f;
    } else if q == 2 {
      assert [] + ([] + (f + ([] + []))) == f;
    } else if q == 3 {
      assert [] + ([] + ([] + (f + []))) == f;
    } else {
      assert [] + ([] + ([] + ([] + f))) == f;
    }
  }

  /** The library part holds nothing from the other buckets. */
  lemma LibPartOutside(ts: seq<Target>, q: nat)
    requires q != 0
    ensures Filter(LibPart(ts), InBucket(q)) == []
  {
    match Last(ts, InBucket(0))
    case None =>
    case Some(lib) =>
      assert Filter([lib], InBucket(q)) == [];
  }

  /** Every binary, example, test and bench is written exactly as often as
      it occurs; of the libraries only the last is written; build scripts
      never are. */
  lemma RenderedTargetsCount(ts: seq<Target>, t: Target)
    ensures multiset(RenderedTargets(ts))[t]
         == if 1 <= Rank(t.kind) <= 4 then multiset(ts)[t]
            else if t.kind.Lib? && Last(ts, InBucket(0)) == Some(t) then 1
            else 0
  {
    var b1 := Filter(ts, InBucket(1));
    var b2 := Filter(ts, InBucket(2));
    var b3 := Filter(ts, InBucket(3));
    var b4 := Filter(ts, InBucket(4));
    FilterCount(ts, InBucket(1), t);
    FilterCount(ts, InBucket(2), t);
    FilterCount(ts, InBucket(3), t);
    FilterCount(ts, InBucket(4), t);
    var l := LibPart(ts);
    var tail := b1 + (b2 + (b3 + b4));
    assert multiset(tail)[t] == multiset(b1)[t] + multiset(b2)[t] + multiset(b3)[t] + multiset(b4)[t];
    assert multiset(l)[t] == if Last(ts, InBucket(0)) == Some(t) then 1 else 0;
    assert multiset(RenderedTargets(ts))[t] == multiset(l)[t] + multiset(tail)[t];
  }

  /** Buckets are written in rank order: library, binaries, examples,
      tests, benches. */
  lemma RenderedTargetsRanked(ts: seq<Target>)
    ensures var r := RenderedTargets(ts);
      forall i, j :: 0 <= i < j < |r| ==> Rank(r[i].kind) <= Rank(r[j].kind)
    ensures forall i :: 0 <= i < |RenderedTargets(ts)| ==> !RenderedTargets(ts)[i].kind.CustomBuild?
  {
    var l := LibPart(ts);
    var b1 := Filter(ts, InBucket(1));
    var b2 := Filter(ts, InBucket(2));
    var b3 := Filter(ts, InBucket(3));
    var b4 := Filter(ts, InBucket(4));
    FilterSatisfies(ts, InBucket(1));
    FilterSatisfies(ts, InBucket(2));
    FilterSatisfies(ts, InBucket(3));
    FilterSatisfies(ts, InBucket(4));
    var r := l + (b1 + (b2 + (b3 + b4)));
    assert forall i :: 0 <= i < |l| ==> Rank(l[i].kind) == 0;
    forall i | 0 <= i < |r| ensures Rank(r[i].kind) == (
        if i < |l| then 0 else if i < |l| + |b1| then 1 else if i < |l| + |b1| + |b2| then 2
        else if i < |l| + |b1| + |b2| + |b3| then 3 else 4)
    {
      if i < |l| {
      } else if i < |l| + |b1| {
        assert r[i] == b1[i - |l|];
      } else if i < |l| + |b1| + |b2| {
        assert r[i] == b2[i - |l| - |b1|];
      } else if i < |l| + |b1| + |b2| + |b3| {
        assert r[i] == b3[i - |l| - |b1| - |b2|];
      } else {
        assert r[i] == b4[i - |l| - |b1| - |b2| - |b3|];
      }
    }
  }
}
