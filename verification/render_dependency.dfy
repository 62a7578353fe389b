/** `render_dependency` (src/main.rs:392-460): one dependency line, either
    a bare version string or an inline table whose fields follow a fixed
    order. */
module DependencyLines {
  import opened Wrappers
  import opened Strings
  import opened Sorting
  import opened TomlStr
  import opened TomlVersion
  import opened ManifestModel

  /** The key the comment scanner would have recorded for this dependency.
      It names the `dependencies` table whatever the dependency's kind. */
  function CommentKey(d: Dependency): string
  {
    match d.platform
    case None => "dependencies." + d.nameInToml
    case Some(p) => "target." + Quote(p) + ".dependencies." + d.nameInToml
  }

  /** The git reference field; the `master` branch and the default branch
      are not written. */
  function RefFields(r: GitReference): seq<Entry>
  {
    match r
    case Tag(tag) => [Entry("tag", Quote(tag))]
    case Branch(branch) => Optional(branch != "master", Entry("branch", Quote(branch)))
    case Rev(rev) => [Entry("rev", Quote(rev))]
    case DefaultBranch => []
  }

  function SourceFields(s: SourceKind): seq<Entry>
  {
    match s
    case Registry => []
    case LocalPath(path) => [Entry("path", Quote(path))]
    case Git(url, reference) => [Entry("git", Quote(url))] + RefFields(reference)
  }

  /** The fields besides `version`, in the order they are pushed. */
  function MetaFields(d: Dependency): seq<Entry>
  {
    Optional(d.packageName != d.nameInToml, Entry("package", Quote(d.packageName)))
    + (SourceFields(d.source)
    + (Optional(!d.usesDefaultFeatures, Entry("default-features", "false"))
    + (Optional(|d.features| > 0, Entry("features", FlatArray(QuoteAll(d.features))))
    + Optional(d.optional, Entry("optional", "true")))))
  }

  /** The inline table's fields: `version` goes in front unless it is `*`. */
  function TableFields(d: Dependency): seq<Entry>
  {
    Optional(d.versionReq != "*", Entry("version", Spell(d.versionReq))) + MetaFields(d)
  }

  function Pair(e: Entry): string
  {
    e.key + " = " + e.value
  }

  function Pairs(es: seq<Entry>): (r: seq<string>)
    ensures |r| == |es|
    ensures forall i :: 0 <= i < |es| ==> r[i] == Pair(es[i])
  {
    if |es| == 0 then [] else [Pair(es[0])] + Pairs(es[1..])
  }

  /** The right-hand side of the dependency's line. */
  function DependencyValue(d: Dependency): string
  {
    if MetaFields(d) == [] then Spell(d.versionReq)
    else "{ " + Join(Pairs(TableFields(d)), ", ") + " }"
  }

  function RenderDependency(d: Dependency, comments: map<string, string>): string
  {
    CommentFor(CommentKey(d), comments) + (d.nameInToml + " = " + DependencyValue(d) + "\n")
  }

  /** A comment recorded under the dependency's key is written immediately
      before its line. */
  lemma CommentWritten(d: Dependency, comments: map<string, string>)
    requires CommentKey(d) in comments
    ensures RenderDependency(d, comments) == comments[CommentKey(d)] + (d.nameInToml + " = " + DependencyValue(d) + "\n")
  {
  }

  // ---------------------------------------------------------------------
  // The field rules, stated key by key

  /** Every key an inline dependency table can hold, in the order written. */
  const DepKeyOrder: seq<string> :=
    ["version"] + (["package"] + (SourceKeyOrder + (["default-features"] + (["features"] + ["optional"]))))

  /** The keys a source can contribute, in the order written. */
  const SourceKeyOrder: seq<string> := ["path", "git", "tag", "branch", "rev"]

  /** Whether a dependency needs more than its version: it is renamed,
      does not come from the registry, turns default features off, turns
      features on, or is optional. */
  predicate NeedsTable(d: Dependency)
  {
    d.packageName != d.nameInToml || !d.source.Registry? || !d.usesDefaultFeatures
    || |d.features| > 0 || d.optional
  }

  predicate IsSourceKey(k: string)
  {
    k == "path" || k == "git" || k == "tag" || k == "branch" || k == "rev"
  }

  /** The value a source gives each of its keys. */
  function SourceValue(s: SourceKind, k: string): Option<string>
  {
    match s
    case Registry => None
    case LocalPath(path) => if k == "path" then Some(Quote(path)) else None
    case Git(url, reference) =>
      if k == "git" then Some(Quote(url))
      else match reference
        case Tag(tag) => if k == "tag" then Some(Quote(tag)) else None
        case Branch(branch) => if k == "branch" && branch != "master" then Some(Quote(branch)) else None
        case Rev(rev) => if k == "rev" then Some(Quote(rev)) else None
        case DefaultBranch => None
  }

  /** The value each key takes in the inline table, from the dependency's
      fields alone. */
  function FieldValue(d: Dependency, k: string): Option<string>
  {
    if k == "version" then (if d.versionReq != "*" then Some(Spell(d.versionReq)) else None)
    else MetaValue(d, k)
  }

  /** The value of each key other than `version`. */
  function MetaValue(d: Dependency, k: string): Option<string>
  {
    if k == "package" then (if d.packageName != d.nameInToml then Some(Quote(d.packageName)) else None)
    else if IsSourceKey(k) then SourceValue(d.source, k)
    else FlagValue(d, k)
  }

  /** The value of the three keys written after the source. */
  function FlagValue(d: Dependency, k: string): Option<string>
  {
    if k == "default-features" then (if !d.usesDefaultFeatures then Some("false") else None)
    else if k == "features" then (if |d.features| > 0 then Some(FlatArray(QuoteAll(d.features))) else None)
    else if k == "optional" then (if d.optional then Some("true") else None)
    else None
  }

  /** Whether key `k` is written, from the dependency's fields alone. */
  predicate HasField(d: Dependency, k: string)
  {
    if k == "version" then d.versionReq != "*"
    else if k == "package" then d.packageName != d.nameInToml
    else if k == "path" then d.source.LocalPath?
    else if k == "git" then d.source.Git?
    else if k == "tag" then d.source.Git? && d.source.reference.Tag?
    else if k == "branch" then d.source.Git? && d.source.reference.Branch? && d.source.reference.branch != "master"
    else if k == "rev" then d.source.Git? && d.source.reference.Rev?
    else if k == "default-features" then !d.usesDefaultFeatures
    else if k == "features" then |d.features| > 0
    else k == "optional" && d.optional
  }

  lemma HasFieldValue(d: Dependency, k: string)
    ensures HasField(d, k) <==> FieldValue(d, k).Some?
  {
  }

  function Present(d: Dependency): string -> bool
  {
    k => HasField(d, k)
  }

  lemma SourceLookup(s: SourceKind, k: string)
    ensures Lookup(SourceFields(s), k) == if IsSourceKey(k) then SourceValue(s, k) else None
  {
    match s
    case Registry =>
    case LocalPath(path) =>
      assert [Entry("path", Quote(path))][1..] == [];
    case Git(url, reference) =>
      LookupAppend([Entry("git", Quote(url))], RefFields(reference), k);
      assert [Entry("git", Quote(url))][1..] == [];
      match reference
      case Tag(tag) =>
        assert [Entry("tag", Quote(tag))][1..] == [];
      case Branch(branch) =>
        LookupOptional(branch != "master", Entry("branch", Quote(branch)), [], k);
        assert RefFields(reference) + [] == RefFields(reference);
      case Rev(rev) =>
        assert [Entry("rev", Quote(rev))][1..] == [];
      case DefaultBranch =>
  }

  lemma FlagLookup(d: Dependency, k: string)
    ensures Lookup(Optional(!d.usesDefaultFeatures, Entry("default-features", "false"))
                   + (Optional(|d.features| > 0, Entry("features", FlatArray(QuoteAll(d.features))))
                   + Optional(d.optional, Entry("optional", "true"))), k)
         == FlagValue(d, k)
  {
    var o5 := Optional(d.optional, Entry("optional", "true"));
    var o4 := Optional(|d.features| > 0, Entry("features", FlatArray(QuoteAll(d.features))));
    LookupOptional(!d.usesDefaultFeatures, Entry("default-features", "false"), o4 + o5, k);
    LookupOptional(|d.features| > 0, Entry("features", FlatArray(QuoteAll(d.features))), o5, k);
    LookupOptional(d.optional, Entry("optional", "true"), [], k);
    assert o5 + [] == o5;
  }

  lemma MetaLookup(d: Dependency, k: string)
    ensures Lookup(MetaFields(d), k) == MetaValue(d, k)
  {
    var flags := Optional(!d.usesDefaultFeatures, Entry("default-features", "false"))
                 + (Optional(|d.features| > 0, Entry("features", FlatArray(QuoteAll(d.features))))
                 + Optional(d.optional, Entry("optional", "true")));
    var src := SourceFields(d.source);
    LookupOptional(d.packageName != d.nameInToml, Entry("package", Quote(d.packageName)), src + flags, k);
    LookupAppend(src, flags, k);
    SourceLookup(d.source, k);
    FlagLookup(d, k);
  }

  /** Each key's lookup in the inline table gives exactly its field value. */
  lemma TableFieldLookup(d: Dependency, k: string)
    ensures Lookup(TableFields(d), k) == FieldValue(d, k)
  {
    LookupOptional(d.versionReq != "*", Entry("version", Spell(d.versionReq)), MetaFields(d), k);
    MetaLookup(d, k);
  }

  lemma KeysOptional(c: bool, e: Entry)
    ensures Keys(Optional(c, e)) == When(c, e.key)
  {
  }

  /** Keys of the six pieces of an inline table, front to back. */
  lemma KeysPieces(c1: bool, e1: Entry, c2: bool, e2: Entry, mid: seq<Entry>,
                   c3: bool, e3: Entry, c4: bool, e4: Entry, c5: bool, e5: Entry)
    ensures Keys(Optional(c1, e1) + (Optional(c2, e2) + (mid + (Optional(c3, e3)
                 + (Optional(c4, e4) + Optional(c5, e5))))))
         == When(c1, e1.key) + (When(c2, e2.key) + (Keys(mid)
            + (When(c3, e3.key) + (When(c4, e4.key) + When(c5, e5.key)))))
  {
    var o4 := Optional(c4, e4);
    var o5 := Optional(c5, e5);
    var t3 := Optional(c3, e3) + (o4 + o5);
    KeysOptional(c1, e1);
    KeysOptional(c2, e2);
    KeysOptional(c3, e3);
    KeysOptional(c4, e4);
    KeysOptional(c5, e5);
    KeysAppend(o4, o5);
    KeysAppend(Optional(c3, e3), o4 + o5);
    KeysAppend(mid, t3);
    KeysAppend(Optional(c2, e2), mid + t3);
    KeysAppend(Optional(c1, e1), Optional(c2, e2) + (mid + t3));
  }

  lemma SourceKeys(d: Dependency)
    ensures Keys(SourceFields(d.source)) == Filter(SourceKeyOrder, Present(d))
  {
    var p := Present(d);
    FilterFive("path", "git", "tag", "branch", "rev", p);
    assert p("path") == d.source.LocalPath?;
    assert p("git") == d.source.Git?;
    assert p("tag") == (d.source.Git? && d.source.reference.Tag?);
    assert p("branch") == (d.source.Git? && d.source.reference.Branch? && d.source.reference.branch != "master");
    assert p("rev") == (d.source.Git? && d.source.reference.Rev?);
    match d.source
    case Registry =>
    case LocalPath(_) =>
    case Git(url, reference) =>
      KeysAppend([Entry("git", Quote(url))], RefFields(reference));
      match reference
      case Tag(_) =>
      case Branch(branch) =>
        KeysOptional(branch != "master", Entry("branch", Quote(branch)));
      case Rev(_) =>
      case DefaultBranch =>
  }

  lemma OrderFilter(d: Dependency)
    ensures Filter(DepKeyOrder, Present(d))
         == When(d.versionReq != "*", "version") + (When(d.packageName != d.nameInToml, "package")
            + (Filter(SourceKeyOrder, Present(d))
            + (When(!d.usesDefaultFeatures, "default-features") + (When(|d.features| > 0, "features")
            + When(d.optional, "optional")))))
  {
    var p := Present(d);
    var src := SourceKeyOrder;
    var t2 := ["features"] + ["optional"];
    var t1 := ["default-features"] + t2;
    var m := src + t1;
    FilterAppend(["version"], ["package"] + m, p);
    FilterAppend(["package"], m, p);
    FilterAppend(src, t1, p);
    FilterAppend(["default-features"], t2, p);
    FilterAppend(["features"], ["optional"], p);
    FilterSingle("version", p);
    FilterSingle("package", p);
    FilterSingle("default-features", p);
    FilterSingle("features", p);
    FilterSingle("optional", p);
  }

  /** The inline table holds exactly the keys whose field is present, in
      the fixed order `version, package, path, git, tag, branch, rev,
      default-features, features, optional`. */
  lemma TableFieldOrder(d: Dependency)
    ensures Keys(TableFields(d)) == Filter(DepKeyOrder, Present(d))
  {
    OrderFilter(d);
    SourceKeys(d);
    KeysPieces(d.versionReq != "*", Entry("version", Spell(d.versionReq)),
               d.packageName != d.nameInToml, Entry("package", Quote(d.packageName)),
               SourceFields(d.source),
               !d.usesDefaultFeatures, Entry("default-features", "false"),
               |d.features| > 0, Entry("features", FlatArray(QuoteAll(d.features))),
               d.optional, Entry("optional", "true"));
  }

  /** The bare `name = "version"` form is used exactly when no field
      besides the version is needed. */
  lemma BareFormIff(d: Dependency)
    ensures MetaFields(d) == [] <==> !NeedsTable(d)
  {
    TableFieldLookup(d, "package");
    TableFieldLookup(d, "path");
    TableFieldLookup(d, "git");
    TableFieldLookup(d, "default-features");
    TableFieldLookup(d, "features");
    TableFieldLookup(d, "optional");
    LookupAppend(Optional(d.versionReq != "*", Entry("version", Spell(d.versionReq))), MetaFields(d), "package");
  }

  /** The comment looked up is the one recorded under `dependencies`: a
      comment the scanner recorded under `dev-dependencies.<name>` is not
      written back. */
  lemma DevCommentNotWritten(d: Dependency, c: string)
    requires d.kind == Development && d.platform == None
    ensures RenderDependency(d, map["dev-dependencies." + d.nameInToml := c])
         == d.nameInToml + " = " + DependencyValue(d) + "\n"
  {
    var dev := "dev-dependencies." + d.nameInToml;
    var comments := map[dev := c];
    DevKeyDiffers(CommentKey(d), dev, d.nameInToml);
    assert CommentKey(d) !in comments;
    var rest := d.nameInToml + " = " + DependencyValue(d) + "\n";
    assert RenderDependency(d, comments) == CommentFor(CommentKey(d), comments) + rest;
    assert CommentFor(CommentKey(d), comments) == "";
  }

  /** Likewise a comment the scanner recorded above a `[build-dependencies]`
      entry, under `build-dependencies.<name>`, is not written back. */
  lemma BuildCommentNotWritten(d: Dependency, c: string)
    requires d.kind == Build && d.platform == None
    ensures RenderDependency(d, map["build-dependencies." + d.nameInToml := c])
         == d.nameInToml + " = " + DependencyValue(d) + "\n"
  {
    var build := "build-dependencies." + d.nameInToml;
    var comments := map[build := c];
    BuildKeyDiffers(CommentKey(d), build, d.nameInToml);
    assert CommentKey(d) !in comments;
    var rest := d.nameInToml + " = " + DependencyValue(d) + "\n";
    assert RenderDependency(d, comments) == CommentFor(CommentKey(d), comments) + rest;
    assert CommentFor(CommentKey(d), comments) == "";
  }

  lemma BuildKeyDiffers(normal: string, build: string, name: string)
    requires normal == "dependencies." + name && build == "build-dependencies." + name
    ensures normal != build
  {
    assert |build| == |normal| + 6;
  }

  lemma DevKeyDiffers(normal: string, dev: string, name: string)
    requires normal == "dependencies." + name && dev == "dev-dependencies." + name
    ensures normal != dev
  {
    assert |dev| == |normal| + 4;
  }

  /** A dependency needing nothing but its version is written
      `name = "<version>"`, after its comment if one was recorded. */
  lemma BareLine(d: Dependency, comments: map<string, string>)
    requires !NeedsTable(d) && CommentKey(d) !in comments
    ensures RenderDependency(d, comments) == d.nameInToml + " = " + Spell(d.versionReq) + "\n"
  {
    BareFormIff(d);
    assert DependencyValue(d) == Spell(d.versionReq);
    assert CommentFor(CommentKey(d), comments) == "";
  }

  /** `bar = "^1.0"` from the registry with nothing else set is written
      `bar = "1.0.0"`. */
  lemma BareFormExample(d: Dependency)
    requires d.nameInToml == "bar" && d.packageName == "bar" && d.versionReq == "^1.0"
    requires d.source == Registry && d.usesDefaultFeatures && d.features == [] && !d.optional
    ensures RenderDependency(d, map[]) == "bar = \"1.0.0\"\n"
  {
    BareLine(d, map[]);
    SpellOneDigitMinor(d.versionReq, '1', '0');
    BarLineText(d.nameInToml + " = " + Spell(d.versionReq) + "\n", Spell(d.versionReq));
  }

  lemma BarLineText(line: string, version: string)
    requires version == ['"', '1', '.', '0', '.', '0', '"'] && line == "bar" + " = " + version + "\n"
    ensures line == "bar = \"1.0.0\"\n"
  {
  }

  /** An optional path dependency is written as an inline table that keeps
      its version in front: `{ version = "0.3.0", path = "../baz",
      optional = true }`. */
  lemma TableFormExample(d: Dependency)
    requires d.nameInToml == "baz" && d.packageName == "baz" && d.versionReq == "^0.3"
    requires d.source == LocalPath("../baz") && d.usesDefaultFeatures && d.features == [] && d.optional
    ensures MetaFields(d) != []
    ensures TableFields(d)
         == [Entry("version", "\"0.3.0\""), Entry("path", "\"../baz\""), Entry("optional", "true")]
  {
    assert d.versionReq != "*";
    PathOptionalTable(d);
    SpellOneDigitMinor(d.versionReq, '0', '3');
    VersionExample(Spell(d.versionReq));
    QuotePlainExample(d.source.path);
  }

  lemma PathOptionalTable(d: Dependency)
    requires d.nameInToml == d.packageName && d.source.LocalPath? && d.versionReq != "*"
    requires d.usesDefaultFeatures && d.features == [] && d.optional
    ensures MetaFields(d) != []
    ensures TableFields(d)
         == [Entry("version", Spell(d.versionReq)), Entry("path", Quote(d.source.path)), Entry("optional", "true")]
  {
    PathOptionalFields(d);
  }

  lemma VersionExample(version: string)
    requires version == ['"', '0', '.', '3', '.', '0', '"']
    ensures version == "\"0.3.0\""
  {
  }

  lemma QuotePlainExample(s: string)
    requires s == "../baz"
    ensures Quote(s) == "\"../baz\""
  {
    assert !UsesLiteralForm(s);
    EscapePlain(s);
  }

  lemma PathOptionalFields(d: Dependency)
    requires d.nameInToml == d.packageName && d.source.LocalPath?
    requires d.usesDefaultFeatures && d.features == [] && d.optional
    ensures MetaFields(d) == [Entry("path", Quote(d.source.path)), Entry("optional", "true")]
  {
  }
}
