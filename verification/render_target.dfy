/** `render_target` (src/main.rs:327-390): which lines a target's table
    needs, and whether the table is written at all. */
module TargetTables {
  import opened Wrappers
  import opened TomlStr
  import opened ManifestModel

  /** The source paths cargo infers for a target of this kind and name. */
  function StdPaths(kind: TargetKind, name: string): set<string>
  {
    match kind
    case Lib(_) => {"src/lib.rs"}
    case Bin => {"src/main.rs", "src/bin/" + name + "/main.rs", "src/bin/" + name + ".rs"}
    case Test => {"tests/" + name + "/main.rs", "tests/" + name + ".rs"}
    case Bench => {"benches/" + name + "/main.rs", "benches/" + name + ".rs"}
    case ExampleLib(_) => {"examples/" + name + "/main.rs", "examples/" + name + ".rs"}
    case ExampleBin => {"examples/" + name + "/main.rs", "examples/" + name + ".rs"}
    case CustomBuild => {}
  }

  predicate AtStdPath(t: Target)
  {
    t.path in StdPaths(t.kind, t.name)
  }

  /** One `proc-macro = true` per proc-macro crate type. */
  function ProcMacroEntries(crateTypes: seq<CrateType>): (r: seq<Entry>)
    ensures forall i :: 0 <= i < |r| ==> r[i] == Entry("proc-macro", "true")
    ensures |r| > 0 <==> ProcMacro in crateTypes
    ensures |r| == multiset(crateTypes)[ProcMacro]
  {
    if |crateTypes| == 0 then []
    else
      assert crateTypes == [crateTypes[0]] + crateTypes[1..];
      (if crateTypes[0] == ProcMacro then [Entry("proc-macro", "true")] else [])
      + ProcMacroEntries(crateTypes[1..])
  }

  /** The lines buffered for a target before its header is decided. */
  function TargetBody(t: Target): seq<Entry>
  {
    (if t.kind.Lib? then ProcMacroEntries(t.kind.crateTypes) else [])
    + (Optional(!AtStdPath(t), Entry("path", Quote(t.path)))
    + (Optional(!t.harness, Entry("harness", "false"))
    + Optional(!t.documented && t.IsLib(), Entry("doc", "false"))))
  }

  lemma {:induction false} ProcMacroLookup(crateTypes: seq<CrateType>, k: string)
    ensures Lookup(ProcMacroEntries(crateTypes), k)
         == if k == "proc-macro" && ProcMacro in crateTypes then Some("true") else None
  {
    if |crateTypes| > 0 {
      ProcMacroLookup(crateTypes[1..], k);
      var head := if crateTypes[0] == ProcMacro then [Entry("proc-macro", "true")] else [];
      LookupAppend(head, ProcMacroEntries(crateTypes[1..]), k);
    }
  }

  /** The table name written for a kind; array tables are written `[[..]]`. */
  function TableHeader(kind: TargetKind): string
    requires !kind.CustomBuild?
  {
    match kind
    case Lib(_) => "lib"
    case Bin => "[bin]"
    case Test => "[test]"
    case Bench => "[bench]"
    case ExampleLib(_) => "[example]"
    case ExampleBin => "[example]"
  }

  /** The target's table, or None when nothing about it needs saying. A
      build script never reaches this: the code panics on its header. */
  function TargetBlock(packageName: string, t: Target): Option<Block>
    requires !t.kind.CustomBuild?
  {
    var body := TargetBody(t);
    if body == [] then None
    else
      var nameEntry := if t.IsLib() && t.name == packageName then [] else [Entry("name", Quote(t.name))];
      Some(Block(TableHeader(t.kind), nameEntry + body))
  }

  function RenderTarget(packageName: string, t: Target): string
    requires !t.kind.CustomBuild?
  {
    match TargetBlock(packageName, t)
    case None => ""
    case Some(b) => BlockText(b)
  }

  /** Where a body key stands in the written order: the proc-macro lines
      first, then `path`, `harness` and `doc`. */
  function BodyRank(k: string): nat
  {
    if k == "proc-macro" then 0
    else if k == "path" then 1
    else if k == "harness" then 2
    else if k == "doc" then 3
    else 4
  }

  /** Keys in written order: each of `path`, `harness`, `doc` at most once
      and after every earlier-ranked key; only `proc-macro` may repeat. */
  ghost predicate BodyOrdered(es: seq<Entry>)
  {
    && (forall i :: 0 <= i < |es| ==> BodyRank(es[i].key) < 4)
    && (forall i, j :: 0 <= i < j < |es| ==>
          BodyRank(es[i].key) < BodyRank(es[j].key) || BodyRank(es[j].key) == 0)
  }

  /** The body rules: `proc-macro = true` once per proc-macro crate type of
      a library, `path` iff the path is not the kind's conventional one,
      `harness = false` iff the harness is off, `doc = false` iff a library
      is left out of the docs; in that order, with no other line. */
  lemma TargetBodySpec(t: Target)
    ensures var body := TargetBody(t);
      && Lookup(body, "path") == (if AtStdPath(t) then None else Some(Quote(t.path)))
      && Lookup(body, "harness") == (if t.harness then None else Some("false"))
      && Lookup(body, "doc") == (if !t.documented && t.IsLib() then Some("false") else None)
      && Lookup(body, "proc-macro") == (if t.kind.Lib? && ProcMacro in t.kind.crateTypes then Some("true") else None)
      && Lookup(body, "name") == None
    ensures BodyOrdered(TargetBody(t))
  {
    BodyLookup(t, "path");
    BodyLookup(t, "harness");
    BodyLookup(t, "doc");
    BodyLookup(t, "proc-macro");
    BodyLookup(t, "name");
    BodyInOrder(t);
  }

  lemma BodyInOrder(t: Target)
    ensures BodyOrdered(TargetBody(t))
  {
    var pm := if t.kind.Lib? then ProcMacroEntries(t.kind.crateTypes) else [];
    var o1 := Optional(!AtStdPath(t), Entry("path", Quote(t.path)));
    var o2 := Optional(!t.harness, Entry("harness", "false"));
    var o3 := Optional(!t.documented && t.IsLib(), Entry("doc", "false"));
    OptionalLinesOrdered(o1, o2, o3);
    assert forall i :: 0 <= i < |pm| ==> pm[i].key == "proc-macro";
    OrderedAfterZeros(pm, o1 + (o2 + o3));
  }

  /** At most one `path`, `harness` and `doc` line, in that order. */
  lemma OptionalLinesOrdered(o1: seq<Entry>, o2: seq<Entry>, o3: seq<Entry>)
    requires AtMostOne(o1, "path") && AtMostOne(o2, "harness") && AtMostOne(o3, "doc")
    ensures BodyOrdered(o1 + (o2 + o3))
  {
    assert BodyRank("path") == 1 && BodyRank("harness") == 2 && BodyRank("doc") == 3;
    var tail := o1 + (o2 + o3);
    forall i | 0 <= i < |tail|
      ensures BodyRank(tail[i].key) == (if i < |o1| then 1 else if i < |o1| + |o2| then 2 else 3)
    {
      if i < |o1| {
        assert tail[i] == o1[i];
      } else if i < |o1| + |o2| {
        assert tail[i] == o2[i - |o1|];
      } else {
        assert tail[i] == o3[i - |o1| - |o2|];
      }
    }
  }

  /** A run of rank-0 lines followed by ordered lines is ordered. */
  lemma OrderedAfterZeros(pm: seq<Entry>, tail: seq<Entry>)
    requires forall i :: 0 <= i < |pm| ==> pm[i].key == "proc-macro"
    requires BodyOrdered(tail)
    ensures BodyOrdered(pm + tail)
  {
    var es := pm + tail;
    forall i | 0 <= i < |es| ensures BodyRank(es[i].key) < 4 {
      if i >= |pm| { assert es[i] == tail[i - |pm|]; }
    }
    forall i, j | 0 <= i < j < |es|
      ensures BodyRank(es[i].key) < BodyRank(es[j].key) || BodyRank(es[j].key) == 0
    {
      if i >= |pm| {
        assert es[i] == tail[i - |pm|] && es[j] == tail[j - |pm|];
      } else if j >= |pm| {
        assert es[j] == tail[j - |pm|];
      }
    }
  }

  /** The value a target's body gives key `k`, field by field. */
  function BodyValue(t: Target, k: string): Option<string>
  {
    if k == "proc-macro" && t.kind.Lib? && ProcMacro in t.kind.crateTypes then Some("true")
    else if k == "path" && !AtStdPath(t) then Some(Quote(t.path))
    else if k == "harness" && !t.harness then Some("false")
    else if k == "doc" && !t.documented && t.IsLib() then Some("false")
    else None
  }

  /** Lookup through a run of optional lines after a fixed prefix. */
  lemma LookupAfterPrefix(pm: seq<Entry>, c1: bool, e1: Entry, c2: bool, e2: Entry, c3: bool, e3: Entry, k: string)
    ensures Lookup(pm + (Optional(c1, e1) + (Optional(c2, e2) + Optional(c3, e3))), k)
         == if Lookup(pm, k).Some? then Lookup(pm, k)
            else if c1 && e1.key == k then Some(e1.value)
            else if c2 && e2.key == k then Some(e2.value)
            else if c3 && e3.key == k then Some(e3.value)
            else None
  {
    var d := Optional(c3, e3);
    LookupAppend(pm, Optional(c1, e1) + (Optional(c2, e2) + d), k);
    LookupOptional(c1, e1, Optional(c2, e2) + d, k);
    LookupOptional(c2, e2, d, k);
    LookupOptional(c3, e3, [], k);
    assert d + [] == d;
  }

  lemma BodyLookup(t: Target, k: string)
    ensures Lookup(TargetBody(t), k) == BodyValue(t, k)
  {
    var pm := if t.kind.Lib? then ProcMacroEntries(t.kind.crateTypes) else [];
    if t.kind.Lib? { ProcMacroLookup(t.kind.crateTypes, k); }
    assert Lookup(pm, k) == if k == "proc-macro" && t.kind.Lib? && ProcMacro in t.kind.crateTypes then Some("true") else None;
    LookupAfterPrefix(pm, !AtStdPath(t), Entry("path", Quote(t.path)), !t.harness, Entry("harness", "false"),
                !t.documented && t.IsLib(), Entry("doc", "false"), k);
  }

  /** A target's table is empty exactly when every field is at its default. */
  lemma TargetBodyEmpty(t: Target)
    ensures TargetBody(t) == [] <==>
      AtStdPath(t) && t.harness && (t.documented || !t.IsLib())
      && !(t.kind.Lib? && ProcMacro in t.kind.crateTypes)
  {
    TargetBodySpec(t);
  }

  /** The header rules: a table is written iff its body is non-empty; its
      `name` line is left out iff it is the library named like the package,
      and otherwise comes first; the body's lines follow it unchanged. */
  lemma TargetBlockSpec(packageName: string, t: Target)
    requires !t.kind.CustomBuild?
    ensures TargetBlock(packageName, t).None? <==> TargetBody(t) == []
    ensures TargetBlock(packageName, t).Some? ==>
      var b := TargetBlock(packageName, t).value;
      && b.header == TableHeader(t.kind)
      && Lookup(b.entries, "name") == (if t.IsLib() && t.name == packageName then None else Some(Quote(t.name)))
      && (Lookup(b.entries, "name").Some? ==> b.entries[0] == Entry("name", Quote(t.name)))
      && (forall k :: k != "name" ==> Lookup(b.entries, k) == BodyValue(t, k))
      && |b.entries| == |TargetBody(t)| + (if Lookup(b.entries, "name").Some? then 1 else 0)
      && b.entries[|b.entries| - |TargetBody(t)|..] == TargetBody(t)
  {
    var body := TargetBody(t);
    if body != [] {
      var nameEntry := if t.IsLib() && t.name == packageName then [] else [Entry("name", Quote(t.name))];
      NameThenBlock(nameEntry, t);
    }
  }

  /** A block made of an optional `name` line and the body. */
  lemma NameThenBlock(nameEntry: seq<Entry>, t: Target)
    requires AtMostOne(nameEntry, "name")
    ensures var es := nameEntry + TargetBody(t);
      && Lookup(es, "name") == (if nameEntry == [] then None else Some(nameEntry[0].value))
      && (forall k :: k != "name" ==> Lookup(es, k) == BodyValue(t, k))
      && es[|nameEntry|..] == TargetBody(t)
  {
    var body := TargetBody(t);
    NameLineFirst(nameEntry, t);
    BodyKeysAfterName(nameEntry, t);
    assert (nameEntry + body)[|nameEntry|..] == body;
  }

  lemma NameLineFirst(nameEntry: seq<Entry>, t: Target)
    requires AtMostOne(nameEntry, "name")
    ensures Lookup(nameEntry + TargetBody(t), "name") == (if nameEntry == [] then None else Some(nameEntry[0].value))
  {
    LookupAppend(nameEntry, TargetBody(t), "name");
    LookupAtMostOne(nameEntry, "name", "name");
    BodyLookup(t, "name");
  }

  lemma BodyKeysAfterName(nameEntry: seq<Entry>, t: Target)
    requires AtMostOne(nameEntry, "name")
    ensures forall k :: k != "name" ==> Lookup(nameEntry + TargetBody(t), k) == BodyValue(t, k)
  {
    forall k | k != "name" ensures Lookup(nameEntry + TargetBody(t), k) == BodyValue(t, k) {
      NameThenBody(nameEntry, TargetBody(t), k);
      BodyLookup(t, k);
    }
  }

  /** Past an optional `name` line, every other key reads from the body. */
  lemma NameThenBody(nameEntry: seq<Entry>, body: seq<Entry>, k: string)
    requires AtMostOne(nameEntry, "name") && k != "name"
    ensures Lookup(nameEntry + body, k) == Lookup(body, k)
  {
    LookupAppend(nameEntry, body, k);
    LookupAtMostOne(nameEntry, "name", k);
  }

  /** A library at `src/lib.rs` named like its package, with the harness
      on, documented and not a proc-macro, writes nothing at all. */
  lemma ConventionalLibOmitted(packageName: string, t: Target)
    requires t.kind == Lib([]) && t.path == "src/lib.rs" && t.name == packageName
    requires t.harness && t.documented
    ensures RenderTarget(packageName, t) == ""
  {
    TargetBodyEmpty(t);
  }

  /** A binary under `src/bin/<name>.rs` needs no `path` line. */
  lemma BinUnderSrcBinHasNoPath(t: Target)
    requires t.kind == Bin && t.path == "src/bin/" + t.name + ".rs"
    ensures Lookup(TargetBody(t), "path") == None
  {
    TargetBodySpec(t);
  }
}
