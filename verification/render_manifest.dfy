/** `render_manifest` (src/main.rs:100-290): the canonical manifest is the
    `[package]` table, then the custom metadata, the target tables, the
    dependency sections and the features, each part written only when it
    has something to say. */
module CanonicalManifest {
  import opened Wrappers
  import opened Strings
  import opened Sorting
  import opened TomlStr
  import opened ManifestModel
  import opened TargetTables
  import opened DependencyLines
  import opened DependencySections
  import opened MetadataTables
  import opened FeatureSection
  import opened TargetOrder
  import opened PackageSection

  /** Custom metadata is written only when it is a table. */
  function MetadataText(meta: Option<MetaValue>): string
  {
    match meta
    case Some(Table(es)) => RenderMetadata("package.metadata", es)
    case _ => ""
  }

  /** The target tables: library, binaries, examples, tests, benches. */
  function TargetsPart(m: Manifest): string
  {
    RenderedTargetsRanked(m.targets);
    TargetsText(m.package.name, RenderedTargets(m.targets))
  }

  function RenderManifest(m: Manifest, extra: ManifestExtra): string
  {
    PackageText(m, extra)
    + (MetadataText(m.customMetadata)
    + (TargetsPart(m)
    + (SectionsText(DepSections(m.dependencies), extra.comments)
    + FeaturesText(m.features, extra.comments))))
  }

  /** The output opens with the `[package]` header, and every later part
      starts on a fresh blank line. */
  lemma RenderStartsWithPackage(m: Manifest, extra: ManifestExtra)
    ensures IsPrefix("[package]\n", RenderManifest(m, extra))
    ensures IsPrefix(PackageText(m, extra), RenderManifest(m, extra))
  {
    var package := PackageText(m, extra);
    var rest := MetadataText(m.customMetadata) + (TargetsPart(m)
      + (SectionsText(DepSections(m.dependencies), extra.comments) + FeaturesText(m.features, extra.comments)));
    assert RenderManifest(m, extra) == package + rest;
    PrefixOfSum(package, rest);
    PackageHeader(m, extra);
    PrefixTransitive("[package]\n", package, package + rest);
  }

  /** A manifest with no targets, dependencies, features or metadata is
      just its `[package]` table. */
  lemma PackageOnly(m: Manifest, extra: ManifestExtra)
    requires m.targets == [] && m.dependencies == [] && m.features == [] && m.customMetadata.None?
    ensures RenderManifest(m, extra) == PackageText(m, extra)
  {
    assert TargetsPart(m) == "" by {
      assert RenderedTargets(m.targets) == [];
    }
    assert SectionsText(DepSections(m.dependencies), extra.comments) == "" by {
      NoSections(m.dependencies);
    }
    QuietParts(m, extra);
  }

  lemma NoSections(deps: seq<Dependency>)
    requires deps == []
    ensures DepSections(deps) == []
  {
    assert Platforms(deps) == [];
    assert !HasMember(deps, DevGroup) && !HasMember(deps, BuildGroup);
    assert SectionGroups(deps) == [];
  }

  /** A conventional library target alone writes no target table. */
  lemma LoneConventionalLib(m: Manifest, lib: Target)
    requires lib.kind == Lib([]) && lib.path == "src/lib.rs" && lib.name == m.package.name
    requires lib.harness && lib.documented
    requires m.targets == [lib]
    ensures TargetsPart(m) == ""
  {
    FilterSingle(lib, InBucket(1));
    FilterSingle(lib, InBucket(2));
    FilterSingle(lib, InBucket(3));
    FilterSingle(lib, InBucket(4));
    var rt := RenderedTargets(m.targets);
    assert rt == [lib];
    ConventionalLibOmitted(m.package.name, lib);
    assert TargetsText(m.package.name, rt) == RenderTarget(m.package.name, lib) + TargetsText(m.package.name, rt[1..]);
  }

  /** A single plain registry dependency gets the `[dependencies]`
      section to itself. */
  lemma LoneDependency(d: Dependency, comments: map<string, string>)
    requires d.kind == Normal && d.platform.None?
    ensures SectionsText(DepSections([d]), comments) == "\n[dependencies]\n" + RenderDependency(d, comments)
  {
    var deps := [d];
    var sec := DepSection(NormalGroup(None), deps);
    LoneSection(d);
    assert SectionsText([sec], comments) == SectionText(sec, comments) by {
      assert [sec][1..] == [];
    }
    assert DependencyLinesText(deps, comments) == RenderDependency(d, comments) by {
      assert deps[1..] == [];
    }
    DependenciesHeader(SectionHeader(NormalGroup(None)));
  }

  lemma LoneSection(d: Dependency)
    requires d.kind == Normal && d.platform.None?
    ensures DepSections([d]) == [DepSection(NormalGroup(None), [d])]
  {
    var deps := [d];
    assert Platforms(deps) == [None];
    assert !HasMember(deps, DevGroup) && !HasMember(deps, BuildGroup);
    assert SectionGroups(deps) == [NormalGroup(None)];
    assert Filter(deps, Member(NormalGroup(None))) == deps;
    assert SortByKey(deps, NameOf) == deps;
  }

  lemma DependenciesHeader(h: string)
    requires h == "dependencies"
    ensures "\n[" + h + "]\n" == "\n[dependencies]\n"
  {
  }

  /** The `[package]` table of a package that sets only its name, version
      and edition, when all three are plain text. */
  lemma MinimalPackageText(m: Manifest, extra: ManifestExtra)
    requires var p := m.package;
      p.description.None? && p.authors == [] && p.keywords == [] && p.categories == []
      && p.license.None? && p.licenseFile.None? && p.readme.None?
      && p.homepage.None? && p.repository.None? && p.documentation.None?
      && p.excludeGlobs == [] && p.includeGlobs == [] && p.links.None? && p.publish.None? && p.defaultRun.None?
    requires extra.autobenches && extra.autobins && extra.autoexamples && extra.autotests
    requires forall i :: 0 <= i < |m.targets| ==> !m.targets[i].kind.CustomBuild?
    requires PlainText(m.package.name) && PlainText(m.package.version) && PlainText(m.package.edition)
    ensures PackageText(m, extra)
         == "[package]\n" + (EntryText(Entry("name", "\"" + m.package.name + "\""))
            + (EntryText(Entry("version", "\"" + m.package.version + "\""))
            + EntryText(Entry("edition", "\"" + m.package.edition + "\""))))
  {
    var p := m.package;
    MinimalPackage(m, extra);
    QuotePlain(p.name);
    QuotePlain(p.version);
    QuotePlain(p.edition);
    var es := PackageEntries(m, extra);
    EntriesThree(es[0], es[1], es[2]);
  }

  lemma EntriesThree(a: Entry, b: Entry, c: Entry)
    ensures EntriesText([a, b, c]) == EntryText(a) + (EntryText(b) + EntryText(c))
  {
    assert [a, b, c][1..] == [b, c];
    assert [b, c][1..] == [c];
    assert [c][1..] == [];
    assert EntriesText([c]) == EntryText(c) + EntriesText([]);
  }

  /** `foo` 0.1.0, edition 2018, with a conventional library and one
      dependency `bar = "^1.0"`, is written as its three `[package]` lines
      and a `[dependencies]` section. */
  lemma FooExample(m: Manifest, extra: ManifestExtra)
    requires m.package == Package("foo", None, "0.1.0", [], [], [], None, None, None, None, None, None,
                                  [], [], None, "2018", None, None)
    requires m.targets == [Target(Lib([]), "foo", "src/lib.rs", true, true)]
    requires |m.dependencies| == 1 && m.dependencies[0] == Dependency("bar", "bar", "^1.0", Registry, Normal, None, true, [], false)
    requires m.features == [] && m.customMetadata.None?
    requires extra == ManifestExtra(true, true, true, true, map[])
    ensures RenderManifest(m, extra)
         == "[package]\n" + ("name = \"foo\"\n" + ("version = \"0.1.0\"\n" + ("edition = \"2018\"\n"
            + ("\n[dependencies]\n" + "bar = \"1.0.0\"\n"))))
  {
    var package := PackageText(m, extra);
    var deps := SectionsText(DepSections(m.dependencies), extra.comments);
    FooPackage(m, extra);
    FooDependencies(m, extra);
    assert RenderManifest(m, extra) == package + deps by {
      LoneConventionalLib(m, m.targets[0]);
      QuietParts(m, extra);
    }
    FooAssemble(RenderManifest(m, extra), package, deps);
  }

  lemma FooPackage(m: Manifest, extra: ManifestExtra)
    requires m.package == Package("foo", None, "0.1.0", [], [], [], None, None, None, None, None, None,
                                  [], [], None, "2018", None, None)
    requires m.targets == [Target(Lib([]), "foo", "src/lib.rs", true, true)]
    requires extra == ManifestExtra(true, true, true, true, map[])
    ensures PackageText(m, extra)
         == "[package]\n" + ("name = \"foo\"\n" + ("version = \"0.1.0\"\n" + "edition = \"2018\"\n"))
  {
    var p := m.package;
    FooPlain(p.name, p.version, p.edition);
    MinimalPackageText(m, extra);
    FooLines(p.name, p.version, p.edition);
  }

  lemma FooDependencies(m: Manifest, extra: ManifestExtra)
    requires |m.dependencies| == 1 && m.dependencies[0] == Dependency("bar", "bar", "^1.0", Registry, Normal, None, true, [], false)
    requires extra.comments == map[]
    ensures SectionsText(DepSections(m.dependencies), extra.comments) == "\n[dependencies]\n" + "bar = \"1.0.0\"\n"
  {
    var d := m.dependencies[0];
    assert m.dependencies == [d];
    LoneDependency(d, extra.comments);
    BareFormExample(d);
  }

  /** Without metadata, target tables or features, the output is the
      `[package]` table followed by the dependency sections. */
  lemma QuietParts(m: Manifest, extra: ManifestExtra)
    requires m.customMetadata.None? && m.features == [] && TargetsPart(m) == ""
    ensures RenderManifest(m, extra) == PackageText(m, extra) + SectionsText(DepSections(m.dependencies), extra.comments)
  {
    var meta := MetadataText(m.customMetadata);
    var features := FeaturesText(m.features, extra.comments);
    var sections := SectionsText(DepSections(m.dependencies), extra.comments);
    assert meta == "";
    assert features == "";
    assert RenderManifest(m, extra) == PackageText(m, extra) + (meta + (TargetsPart(m) + (sections + features)));
    SilentAround(meta, TargetsPart(m), features, sections);
  }

  lemma SilentAround(a: string, b: string, c: string, s: string)
    requires a == "" && b == "" && c == ""
    ensures a + (b + (s + c)) == s
  {
  }

  lemma FooAssemble(out: string, package: string, deps: string)
    requires out == package + deps
    requires package == "[package]\n" + ("name = \"foo\"\n" + ("version = \"0.1.0\"\n" + "edition = \"2018\"\n"))
    requires deps == "\n[dependencies]\n" + "bar = \"1.0.0\"\n"
    ensures out == "[package]\n" + ("name = \"foo\"\n" + ("version = \"0.1.0\"\n" + ("edition = \"2018\"\n"
                   + ("\n[dependencies]\n" + "bar = \"1.0.0\"\n"))))
  {
  }

  lemma FooPlain(name: string, version: string, edition: string)
    requires name == "foo" && version == "0.1.0" && edition == "2018"
    ensures PlainText(name) && PlainText(version) && PlainText(edition)
  {
  }

  lemma FooLines(name: string, version: string, edition: string)
    requires name == "foo" && version == "0.1.0" && edition == "2018"
    ensures EntryText(Entry("name", "\"" + name + "\"")) == "name = \"foo\"\n"
    ensures EntryText(Entry("version", "\"" + version + "\"")) == "version = \"0.1.0\"\n"
    ensures EntryText(Entry("edition", "\"" + edition + "\"")) == "edition = \"2018\"\n"
  {
  }
}
