/** `render_metadata` (src/main.rs:292-325): a custom-metadata table becomes
    one `[<path>]` section per nested table that holds any plain value,
    each parent before its sub-tables. */
module MetadataTables {
  import opened Strings
  import opened TomlStr
  import opened ManifestModel

  /** The column limit past which an array is laid out one item per line,
      measured in UTF-8 bytes as Rust's `str::len` does. */
  const LineLimit: nat := 100

  /** An array's value: flat when `key = [..]` fits within the limit,
      otherwise multi-line. */
  function ArrayValue(key: string, items: seq<string>): string
  {
    var flat := FlatArray(items);
    if Utf8Len(key + " = " + flat) > LineLimit then PrettyArray(items) else flat
  }

  /** The limit only matters for arrays of two or more items (a shorter
      array looks the same either way); a line over the limit in
      characters is always split, and one within a quarter of it never. */
  lemma ArrayLayout(key: string, items: seq<string>)
    ensures |items| <= 1 ==> ArrayValue(key, items) == FlatArray(items)
    ensures |key + " = " + FlatArray(items)| > LineLimit ==> ArrayValue(key, items) == PrettyArray(items)
    ensures 4 * |key + " = " + FlatArray(items)| <= LineLimit ==> ArrayValue(key, items) == FlatArray(items)
  {
    if |items| == 1 {
      assert Concat(items) == items[0] + Concat([]);
    }
  }

  /** The line a non-table entry contributes to its table's section. */
  function LeafEntry(e: MetaEntry): Entry
    requires !e.value.Table?
  {
    match e.value
    case Array(items) => Entry(e.key, ArrayValue(e.key, items))
    case Scalar(text) => Entry(e.key, text)
  }

  /** The lines of a table's own section, in entry order. */
  function PlainEntries(es: seq<MetaEntry>): (r: seq<Entry>)
    ensures |r| <= |es|
  {
    if |es| == 0 then []
    else (if es[0].value.Table? then [] else [LeafEntry(es[0])]) + PlainEntries(es[1..])
  }

  /** The sections a table at `prefix` writes: its own, when it has plain
      entries, then those of its sub-tables in entry order. */
  function MetaBlocks(prefix: string, es: seq<MetaEntry>): seq<Block>
    decreases es, 1
  {
    (if PlainEntries(es) == [] then [] else [Block(prefix, PlainEntries(es))])
    + ChildBlocks(prefix, es)
  }

  function ChildBlocks(prefix: string, es: seq<MetaEntry>): seq<Block>
    decreases es, 0
  {
    if |es| == 0 then []
    else (if es[0].value.Table? then MetaBlocks(prefix + "." + es[0].key, es[0].value.entries) else [])
         + ChildBlocks(prefix, es[1..])
  }

  function RenderMetadata(prefix: string, es: seq<MetaEntry>): string
  {
    BlocksText(MetaBlocks(prefix, es))
  }

  // ---------------------------------------------------------------------
  // Section layout

  /** Every section has at least one line; the table's own section, when
      present, comes first and carries its own path; every other section
      belongs to a sub-table, so its path extends `prefix + "."`. */
  ghost predicate WellLaidOut(prefix: string, es: seq<MetaEntry>, bs: seq<Block>)
  {
    && (forall i :: 0 <= i < |bs| ==> |bs[i].entries| > 0)
    && (forall i :: 0 <= i < |bs| ==>
          (i == 0 && PlainEntries(es) != [] && bs[i].header == prefix)
          || IsPrefix(prefix + ".", bs[i].header))
    && (PlainEntries(es) != [] <==> |bs| > 0 && bs[0].header == prefix)
  }

  /** Child sections all lie under `prefix + "."` and none is empty. */
  ghost predicate UnderPrefix(prefix: string, bs: seq<Block>)
  {
    forall i :: 0 <= i < |bs| ==> |bs[i].entries| > 0 && IsPrefix(prefix + ".", bs[i].header)
  }

  lemma {:induction false} ChildBlocksUnder(prefix: string, es: seq<MetaEntry>)
    ensures UnderPrefix(prefix, ChildBlocks(prefix, es))
    decreases es, 0
  {
    if |es| > 0 {
      var head: seq<Block> := if es[0].value.Table? then MetaBlocks(prefix + "." + es[0].key, es[0].value.entries) else [];
      ChildBlocksUnder(prefix, es[1..]);
      if es[0].value.Table? {
        var sub := prefix + "." + es[0].key;
        MetaBlocksUnder(sub, es[0].value.entries);
        assert IsPrefix(prefix + ".", sub) by {
          assert sub[..|prefix + "."|] == prefix + ".";
        }
        forall i | 0 <= i < |head| ensures IsPrefix(prefix + ".", head[i].header) {
          if head[i].header != sub {
            assert IsPrefix(sub, sub + ".") by {
              assert (sub + ".")[..|sub|] == sub;
            }
            PrefixTransitive(sub, sub + ".", head[i].header);
            PrefixTransitive(prefix + ".", sub, head[i].header);
          }
        }
      }
      var rest := ChildBlocks(prefix, es[1..]);
      assert ChildBlocks(prefix, es) == head + rest;
      forall i | 0 <= i < |head + rest|
        ensures |(head + rest)[i].entries| > 0 && IsPrefix(prefix + ".", (head + rest)[i].header)
      {
        if i >= |head| {
          assert (head + rest)[i] == rest[i - |head|];
        }
      }
    }
  }

  /** Sections of a table at `sub`: each is non-empty and either is the
      table's own (named `sub`) or lies under `sub + "."`. */
  lemma {:induction false} MetaBlocksUnder(sub: string, es: seq<MetaEntry>)
    ensures forall i :: 0 <= i < |MetaBlocks(sub, es)| ==>
      |MetaBlocks(sub, es)[i].entries| > 0
      && (MetaBlocks(sub, es)[i].header == sub || IsPrefix(sub + ".", MetaBlocks(sub, es)[i].header))
    decreases es, 1
  {
    ChildBlocksUnder(sub, es);
    var own: seq<Block> := if PlainEntries(es) == [] then [] else [Block(sub, PlainEntries(es))];
    var rest := ChildBlocks(sub, es);
    forall i | 0 <= i < |own + rest|
      ensures |(own + rest)[i].entries| > 0
           && ((own + rest)[i].header == sub || IsPrefix(sub + ".", (own + rest)[i].header))
    {
      if i >= |own| {
        assert (own + rest)[i] == rest[i - |own|];
      }
    }
  }

  lemma MetaBlocksLayout(prefix: string, es: seq<MetaEntry>)
    ensures WellLaidOut(prefix, es, MetaBlocks(prefix, es))
  {
    ChildBlocksUnder(prefix, es);
    var own: seq<Block> := if PlainEntries(es) == [] then [] else [Block(prefix, PlainEntries(es))];
    var rest := ChildBlocks(prefix, es);
    var bs := own + rest;
    assert MetaBlocks(prefix, es) == bs;
    forall i | 0 <= i < |bs|
      ensures |bs[i].entries| > 0
      ensures (i == 0 && PlainEntries(es) != [] && bs[i].header == prefix) || IsPrefix(prefix + ".", bs[i].header)
    {
      if i >= |own| {
        assert bs[i] == rest[i - |own|];
      }
    }
    if PlainEntries(es) == [] && |bs| > 0 {
      assert bs[0] == rest[0];
      assert |bs[0].header| > |prefix|;
    }
  }

  // ---------------------------------------------------------------------
  // Nothing lost, nothing repeated

  /** Every plain value in the tree paired with the dotted path of the table
      that holds it, in tree order. */
  function Leaves(prefix: string, es: seq<MetaEntry>): seq<(string, Entry)>
    decreases es
  {
    if |es| == 0 then []
    else (if es[0].value.Table? then Leaves(prefix + "." + es[0].key, es[0].value.entries)
          else [(prefix, LeafEntry(es[0]))])
         + Leaves(prefix, es[1..])
  }

  function Tagged(header: string, es: seq<Entry>): (r: seq<(string, Entry)>)
    ensures |r| == |es|
    ensures forall i :: 0 <= i < |es| ==> r[i] == (header, es[i])
  {
    if |es| == 0 then [] else [(header, es[0])] + Tagged(header, es[1..])
  }

  /** Each written line paired with the header of its section. */
  function Flatten(bs: seq<Block>): seq<(string, Entry)>
  {
    if |bs| == 0 then [] else Tagged(bs[0].header, bs[0].entries) + Flatten(bs[1..])
  }

  lemma {:induction false} FlattenAppend(a: seq<Block>, b: seq<Block>)
    ensures Flatten(a + b) == Flatten(a) + Flatten(b)
  {
    if |a| == 0 {
      assert a + b == b;
    } else {
      assert (a + b)[1..] == a[1..] + b;
      FlattenAppend(a[1..], b);
    }
  }

  lemma TaggedAppend(h: string, a: seq<Entry>, b: seq<Entry>)
    ensures Tagged(h, a + b) == Tagged(h, a) + Tagged(h, b)
  {
  }

  /** The sections hold exactly the tree's plain values, each under the
      path of its table: a permutation of `Leaves`, which moves every
      table's own lines in front of its sub-tables. */
  lemma {:induction false} BlocksKeepLeaves(prefix: string, es: seq<MetaEntry>)
    ensures multiset(Flatten(MetaBlocks(prefix, es))) == multiset(Leaves(prefix, es))
    decreases es, 1
  {
    var own: seq<Block> := if PlainEntries(es) == [] then [] else [Block(prefix, PlainEntries(es))];
    FlattenAppend(own, ChildBlocks(prefix, es));
    assert Flatten(own) == Tagged(prefix, PlainEntries(es)) by {
      if own != [] {
        assert Flatten(own) == Tagged(prefix, PlainEntries(es)) + Flatten([]);
      }
    }
    ChildKeepLeaves(prefix, es);
  }

  lemma {:induction false} ChildKeepLeaves(prefix: string, es: seq<MetaEntry>)
    ensures multiset(Tagged(prefix, PlainEntries(es))) + multiset(Flatten(ChildBlocks(prefix, es)))
         == multiset(Leaves(prefix, es))
    decreases es, 0
  {
    if |es| > 0 {
      var e := es[0];
      var rest := es[1..];
      ChildKeepLeaves(prefix, rest);
      var p0: seq<Entry> := if e.value.Table? then [] else [LeafEntry(e)];
      var h: seq<Block> := if e.value.Table? then MetaBlocks(prefix + "." + e.key, e.value.entries) else [];
      TaggedAppend(prefix, p0, PlainEntries(rest));
      FlattenAppend(h, ChildBlocks(prefix, rest));
      if e.value.Table? {
        BlocksKeepLeaves(prefix + "." + e.key, e.value.entries);
      }
    }
  }

  // ---------------------------------------------------------------------
  // Order within a section

  /** The lines of the leaves held directly at `path`, in tree order. */
  function LinesAt(path: string, ls: seq<(string, Entry)>): seq<Entry>
  {
    if |ls| == 0 then []
    else (if ls[0].0 == path then [ls[0].1] else []) + LinesAt(path, ls[1..])
  }

  lemma {:induction false} LinesAtAppend(path: string, a: seq<(string, Entry)>, b: seq<(string, Entry)>)
    ensures LinesAt(path, a + b) == LinesAt(path, a) + LinesAt(path, b)
  {
    if |a| == 0 {
      assert a + b == b;
    } else {
      var h := if a[0].0 == path then [a[0].1] else [];
      assert (a + b)[0] == a[0];
      assert LinesAt(path, a + b) == h + LinesAt(path, (a + b)[1..]);
      assert (a + b)[1..] == a[1..] + b;
      LinesAtAppend(path, a[1..], b);
      assert LinesAt(path, a) == h + LinesAt(path, a[1..]);
    }
  }

  /** No leaf path is shorter than the table's own path. */
  lemma {:induction false} LeafPathsExtend(prefix: string, es: seq<MetaEntry>)
    ensures forall i :: 0 <= i < |Leaves(prefix, es)| ==> |Leaves(prefix, es)[i].0| >= |prefix|
    decreases es
  {
    if |es| > 0 {
      var head: seq<(string, Entry)> := if es[0].value.Table? then Leaves(prefix + "." + es[0].key, es[0].value.entries)
        else [(prefix, LeafEntry(es[0]))];
      var rest := Leaves(prefix, es[1..]);
      LeafPathsExtend(prefix, es[1..]);
      if es[0].value.Table? {
        LeafPathsExtend(prefix + "." + es[0].key, es[0].value.entries);
      }
      assert Leaves(prefix, es) == head + rest;
      forall i | 0 <= i < |head + rest| ensures |(head + rest)[i].0| >= |prefix| {
        if i >= |head| {
          assert (head + rest)[i] == rest[i - |head|];
        }
      }
    }
  }

  lemma {:induction false} NoLinesAt(path: string, ls: seq<(string, Entry)>)
    requires forall i :: 0 <= i < |ls| ==> |ls[i].0| > |path|
    ensures LinesAt(path, ls) == []
  {
    if |ls| > 0 {
      NoLinesAt(path, ls[1..]);
    }
  }

  /** A table's own lines are exactly the leaves held directly under its
      path, in entry order: sub-tables never add to them. */
  lemma {:induction false} OwnLinesInOrder(prefix: string, es: seq<MetaEntry>)
    ensures PlainEntries(es) == LinesAt(prefix, Leaves(prefix, es))
    decreases es
  {
    if |es| > 0 {
      var head: seq<(string, Entry)> := if es[0].value.Table? then Leaves(prefix + "." + es[0].key, es[0].value.entries)
        else [(prefix, LeafEntry(es[0]))];
      OwnLinesInOrder(prefix, es[1..]);
      LinesAtAppend(prefix, head, Leaves(prefix, es[1..]));
      if es[0].value.Table? {
        LeafPathsExtend(prefix + "." + es[0].key, es[0].value.entries);
        NoLinesAt(prefix, head);
      } else {
        assert LinesAt(prefix, head) == [LeafEntry(es[0])] + LinesAt(prefix, []);
      }
    }
  }

  /** The first section, when the table has plain values, is its own: it
      holds the leaves directly under `prefix`, in entry order. */
  lemma OwnSectionInOrder(prefix: string, es: seq<MetaEntry>)
    requires PlainEntries(es) != []
    ensures MetaBlocks(prefix, es)[0] == Block(prefix, LinesAt(prefix, Leaves(prefix, es)))
  {
    OwnLinesInOrder(prefix, es);
  }
}
