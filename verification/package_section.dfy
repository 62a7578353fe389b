/** The `[package]` table (src/main.rs:111-202): a fixed sequence of
    lines, each written only when its field is set, so the table's keys
    always appear in one fixed order. */
module PackageSection {
  import opened Wrappers
  import opened Strings
  import opened Sorting
  import opened TomlStr
  import opened ManifestModel
  import opened TargetOrder

  // ---------------------------------------------------------------------
  // The writer, one line at a time

  /** A string field, written quoted when set. */
  function StrField(key: string, v: Option<string>): (r: seq<Entry>)
    ensures AtMostOne(r, key)
    ensures r != [] <==> v.Some?
  {
    if v.Some? then [Entry(key, Quote(v.value))] else []
  }

  /** A list field, written as a pretty array when non-empty. */
  function ListField(key: string, xs: seq<string>): (r: seq<Entry>)
    ensures AtMostOne(r, key)
    ensures r != [] <==> |xs| > 0
  {
    Optional(|xs| > 0, Entry(key, PrettyArray(QuoteAll(xs))))
  }

  /** `readme` is left out when it names the default `README.md`. */
  function ReadmeField(readme: Option<string>): (r: seq<Entry>)
    ensures AtMostOne(r, "readme")
    ensures r != [] <==> readme.Some? && readme.value != "README.md"
  {
    match readme
    case None => []
    case Some(path) => if path == "README.md" then [] else [Entry("readme", Quote(path))]
  }

  /** `publish`: an empty registry list means publishing is off. */
  function PublishField(publish: Option<seq<string>>): (r: seq<Entry>)
    ensures AtMostOne(r, "publish")
    ensures r != [] <==> publish.Some?
  {
    match publish
    case None => []
    case Some(registries) =>
      if |registries| == 0 then [Entry("publish", "false")]
      else [Entry("publish", PrettyArray(QuoteAll(registries)))]
  }

  /** An auto-discovery flag, written only when it is turned off. */
  function FlagField(key: string, auto: bool): (r: seq<Entry>)
    ensures AtMostOne(r, key)
    ensures r != [] <==> !auto
  {
    Optional(!auto, Entry(key, "false"))
  }

  /** The build script's path: that of the last custom-build target, unless
      it is the conventional `build.rs`. */
  function BuildScript(ts: seq<Target>): (r: Option<string>)
    ensures r.Some? ==> r.value != "build.rs" && exists i :: LastBuildAt(ts, i) && ts[i].path == r.value
    ensures r.None? ==> forall i :: LastBuildAt(ts, i) ==> ts[i].path == "build.rs"
    ensures (forall i :: 0 <= i < |ts| ==> !ts[i].kind.CustomBuild?) ==> r.None?
  {
    match Last(ts, InBucket(5))
    case None => None
    case Some(t) =>
      LastBuildUnique(ts, t);
      if t.path == "build.rs" then None else Some(t.path)
  }

  /** Target `i` is a build script and no later target is one. */
  ghost predicate LastBuildAt(ts: seq<Target>, i: int)
  {
    0 <= i < |ts| && ts[i].kind.CustomBuild? && forall j :: i < j < |ts| ==> !ts[j].kind.CustomBuild?
  }

  /** Every last build script is the one `Last` finds. */
  lemma LastBuildUnique(ts: seq<Target>, t: Target)
    requires Last(ts, InBucket(5)) == Some(t)
    ensures forall i :: LastBuildAt(ts, i) ==> ts[i] == t
  {
    var k :| 0 <= k < |ts| && ts[k] == t && forall j :: k < j < |ts| ==> !InBucket(5)(ts[j]);
    assert LastBuildAt(ts, k);
    forall i | LastBuildAt(ts, i) ensures ts[i] == t {
      LastBuildAtUnique(ts, i, k);
    }
  }

  lemma LastBuildAtUnique(ts: seq<Target>, i: int, k: int)
    requires LastBuildAt(ts, i) && LastBuildAt(ts, k)
    ensures i == k
  {
  }

  function Identity(p: Package): seq<Entry>
  {
    [Entry("name", Quote(p.name))]
    + (StrField("description", p.description)
    + ([Entry("version", Quote(p.version))]
    + (ListField("authors", p.authors)
    + (ListField("keywords", p.keywords)
    + ListField("categories", p.categories)))))
  }

  function Links(p: Package): seq<Entry>
  {
    StrField("license", p.license)
    + (StrField("license-file", p.licenseFile)
    + (ReadmeField(p.readme)
    + (StrField("homepage", p.homepage)
    + (StrField("repository", p.repository)
    + StrField("documentation", p.documentation)))))
  }

  function Contents(p: Package): seq<Entry>
  {
    ListField("exclude", p.excludeGlobs)
    + (ListField("include", p.includeGlobs)
    + (StrField("links", p.links)
    + ([Entry("edition", Quote(p.edition))]
    + (PublishField(p.publish)
    + StrField("default-run", p.defaultRun)))))
  }

  function Discovery(extra: ManifestExtra, ts: seq<Target>): seq<Entry>
  {
    FlagField("autobenches", extra.autobenches)
    + (FlagField("autobins", extra.autobins)
    + (FlagField("autoexamples", extra.autoexamples)
    + (FlagField("autotests", extra.autotests)
    + StrField("build", BuildScript(ts)))))
  }

  /** The lines of the `[package]` table, in the order they are written. */
  function PackageEntries(m: Manifest, extra: ManifestExtra): seq<Entry>
  {
    Identity(m.package) + (Links(m.package) + (Contents(m.package) + Discovery(extra, m.targets)))
  }

  /** The `[package]` table as written: it opens the file, so no blank line
      precedes its header. */
  function PackageText(m: Manifest, extra: ManifestExtra): string
  {
    "[package]\n" + EntriesText(PackageEntries(m, extra))
  }

  lemma PackageHeader(m: Manifest, extra: ManifestExtra)
    ensures IsPrefix("[package]\n", PackageText(m, extra))
  {
    PrefixOfSum("[package]\n", EntriesText(PackageEntries(m, extra)));
  }

  // ---------------------------------------------------------------------
  // The table, stated key by key

  const IdentityKeys: seq<string> := ["name", "description", "version", "authors", "keywords", "categories"]
  const LinkKeys: seq<string> := ["license", "license-file", "readme", "homepage", "repository", "documentation"]
  const ContentKeys: seq<string> := ["exclude", "include", "links", "edition", "publish", "default-run"]
  const DiscoveryKeys: seq<string> := ["autobenches", "autobins", "autoexamples", "autotests", "build"]

  /** Every key the `[package]` table can hold, in the order written. */
  const PackageKeyOrder: seq<string> := IdentityKeys + (LinkKeys + (ContentKeys + DiscoveryKeys))

  function Quoted(v: Option<string>): Option<string>
  {
    if v.Some? then Some(Quote(v.value)) else None
  }

  function ListValue(xs: seq<string>): Option<string>
  {
    if |xs| == 0 then None else Some(PrettyArray(QuoteAll(xs)))
  }

  function Unless(auto: bool): Option<string>
  {
    if auto then None else Some("false")
  }

  /** The identity keys' values: `name` and `version` always, the
      description when set, the lists when non-empty. */
  function IdentityValue(p: Package, k: string): Option<string>
  {
    if k == "name" then Some(Quote(p.name))
    else if k == "description" then Quoted(p.description)
    else if k == "version" then Some(Quote(p.version))
    else if k == "authors" then ListValue(p.authors)
    else if k == "keywords" then ListValue(p.keywords)
    else if k == "categories" then ListValue(p.categories)
    else None
  }

  /** The link keys' values: each when set, `readme` unless it is
      `README.md`. */
  function LinkValue(p: Package, k: string): Option<string>
  {
    if k == "license" then Quoted(p.license)
    else if k == "license-file" then Quoted(p.licenseFile)
    else if k == "readme" then ReadmeValue(p.readme)
    else if k == "homepage" then Quoted(p.homepage)
    else if k == "repository" then Quoted(p.repository)
    else if k == "documentation" then Quoted(p.documentation)
    else None
  }

  /** `readme` is left out when it is the default `README.md`. */
  function ReadmeValue(readme: Option<string>): Option<string>
  {
    if readme == Some("README.md") then None else Quoted(readme)
  }

  /** `publish` is `false` for an empty registry list. */
  function PublishValue(publish: Option<seq<string>>): Option<string>
  {
    match publish
    case None => None
    case Some(registries) => Some(if registries == [] then "false" else PrettyArray(QuoteAll(registries)))
  }

  /** The content keys' values: `edition` always, the glob lists when
      non-empty, the rest when set. */
  function ContentValue(p: Package, k: string): Option<string>
  {
    if k == "exclude" then ListValue(p.excludeGlobs)
    else if k == "include" then ListValue(p.includeGlobs)
    else if k == "links" then Quoted(p.links)
    else if k == "edition" then Some(Quote(p.edition))
    else if k == "publish" then PublishValue(p.publish)
    else if k == "default-run" then Quoted(p.defaultRun)
    else None
  }

  /** The build script is the last custom-build target's path, written
      unless it is `build.rs`. */
  function BuildValue(ts: seq<Target>): Option<string>
  {
    match Last(ts, InBucket(5))
    case None => None
    case Some(t) => if t.path == "build.rs" then None else Some(Quote(t.path))
  }

  /** The discovery keys' values: each flag only when turned off. */
  function DiscoveryValue(extra: ManifestExtra, ts: seq<Target>, k: string): Option<string>
  {
    if k == "autobenches" then Unless(extra.autobenches)
    else if k == "autobins" then Unless(extra.autobins)
    else if k == "autoexamples" then Unless(extra.autoexamples)
    else if k == "autotests" then Unless(extra.autotests)
    else if k == "build" then BuildValue(ts)
    else None
  }

  /** The value each key of `[package]` takes, from the manifest alone. */
  function PackageValue(m: Manifest, extra: ManifestExtra, k: string): Option<string>
  {
    if k in IdentityKeys then IdentityValue(m.package, k)
    else if k in LinkKeys then LinkValue(m.package, k)
    else if k in ContentKeys then ContentValue(m.package, k)
    else if k in DiscoveryKeys then DiscoveryValue(extra, m.targets, k)
    else None
  }

  function Written(m: Manifest, extra: ManifestExtra): string -> bool
  {
    k => PackageValue(m, extra, k).Some?
  }

  /** The one-line pieces of each group, read back key by key. */
  lemma LookupPiece(piece: seq<Entry>, key: string, k: string, v: Option<string>)
    requires AtMostOne(piece, key)
    requires v.Some? <==> piece != []
    requires piece != [] ==> piece[0].value == v.value
    ensures Lookup(piece, k) == if k == key then v else None
  {
    LookupAtMostOne(piece, key, k);
  }

  lemma KeysPiece(piece: seq<Entry>, key: string, present: bool)
    requires AtMostOne(piece, key)
    requires present <==> piece != []
    ensures Keys(piece) == When(present, key)
  {
    LookupAtMostOne(piece, key, key);
  }

  lemma KeysFivePieces(a: seq<Entry>, b: seq<Entry>, c: seq<Entry>, d: seq<Entry>, e: seq<Entry>,
                        ka: string, kb: string, kc: string, kd: string, ke: string,
                        ca: bool, cb: bool, cc: bool, cd: bool, ce: bool)
    requires AtMostOne(a, ka) && (ca <==> a != []) && AtMostOne(b, kb) && (cb <==> b != [])
    requires AtMostOne(c, kc) && (cc <==> c != []) && AtMostOne(d, kd) && (cd <==> d != [])
    requires AtMostOne(e, ke) && (ce <==> e != [])
    ensures Keys(a + (b + (c + (d + e))))
         == When(ca, ka) + (When(cb, kb) + (When(cc, kc) + (When(cd, kd) + When(ce, ke))))
  {
    KeysPiece(a, ka, ca);
    KeysPiece(b, kb, cb);
    KeysPiece(c, kc, cc);
    KeysPiece(d, kd, cd);
    KeysPiece(e, ke, ce);
    KeysFive(a, b, c, d, e);
  }

  lemma KeysSixPieces(a: seq<Entry>, b: seq<Entry>, c: seq<Entry>, d: seq<Entry>, e: seq<Entry>, f: seq<Entry>,
                       ka: string, kb: string, kc: string, kd: string, ke: string, kf: string,
                       ca: bool, cb: bool, cc: bool, cd: bool, ce: bool, cf: bool)
    requires AtMostOne(a, ka) && (ca <==> a != [])
    requires AtMostOne(b, kb) && (cb <==> b != []) && AtMostOne(c, kc) && (cc <==> c != [])
    requires AtMostOne(d, kd) && (cd <==> d != []) && AtMostOne(e, ke) && (ce <==> e != [])
    requires AtMostOne(f, kf) && (cf <==> f != [])
    ensures Keys(a + (b + (c + (d + (e + f)))))
         == When(ca, ka) + (When(cb, kb) + (When(cc, kc) + (When(cd, kd) + (When(ce, ke) + When(cf, kf)))))
  {
    KeysPiece(a, ka, ca);
    KeysFivePieces(b, c, d, e, f, kb, kc, kd, ke, kf, cb, cc, cd, ce, cf);
    KeysAppend(a, b + (c + (d + (e + f))));
  }

  lemma IdentityLookup(p: Package, k: string)
    ensures Lookup(Identity(p), k) == IdentityValue(p, k)
  {
    var a, b, c := [Entry("name", Quote(p.name))], StrField("description", p.description), [Entry("version", Quote(p.version))];
    var d, e, f := ListField("authors", p.authors), ListField("keywords", p.keywords), ListField("categories", p.categories);
    LookupPiece(a, "name", k, Some(Quote(p.name)));
    LookupPiece(b, "description", k, Quoted(p.description));
    LookupPiece(c, "version", k, Some(Quote(p.version)));
    LookupPiece(d, "authors", k, ListValue(p.authors));
    LookupPiece(e, "keywords", k, ListValue(p.keywords));
    LookupPiece(f, "categories", k, ListValue(p.categories));
    LookupSix(a, b, c, d, e, f, k);
  }

  lemma IdentityPresence(p: Package)
    ensures IdentityValue(p, "name").Some?
    ensures IdentityValue(p, "description") == Quoted(p.description)
    ensures IdentityValue(p, "version").Some?
    ensures IdentityValue(p, "authors") == ListValue(p.authors)
    ensures IdentityValue(p, "keywords") == ListValue(p.keywords)
    ensures IdentityValue(p, "categories") == ListValue(p.categories)
  {
  }

  lemma IdentityKeyOrder(p: Package)
    ensures Keys(Identity(p)) == Filter(IdentityKeys, k => IdentityValue(p, k).Some?)
  {
    var q := k => IdentityValue(p, k).Some?;
    var a, b, c := [Entry("name", Quote(p.name))], StrField("description", p.description), [Entry("version", Quote(p.version))];
    var d, e, f := ListField("authors", p.authors), ListField("keywords", p.keywords), ListField("categories", p.categories);
    KeysSixPieces(a, b, c, d, e, f,
      "name", "description", "version", "authors", "keywords", "categories",
      true, Quoted(p.description).Some?, true, ListValue(p.authors).Some?, ListValue(p.keywords).Some?, ListValue(p.categories).Some?);
    IdentityPresence(p);
    FilterSix("name", "description", "version", "authors", "keywords", "categories", q);
  }

  lemma LinksLookup(p: Package, k: string)
    ensures Lookup(Links(p), k) == LinkValue(p, k)
  {
    var a, b, c := StrField("license", p.license), StrField("license-file", p.licenseFile), ReadmeField(p.readme);
    var d, e, f := StrField("homepage", p.homepage), StrField("repository", p.repository), StrField("documentation", p.documentation);
    LookupPiece(a, "license", k, Quoted(p.license));
    LookupPiece(b, "license-file", k, Quoted(p.licenseFile));
    LookupPiece(c, "readme", k, ReadmeValue(p.readme));
    LookupPiece(d, "homepage", k, Quoted(p.homepage));
    LookupPiece(e, "repository", k, Quoted(p.repository));
    LookupPiece(f, "documentation", k, Quoted(p.documentation));
    LookupSix(a, b, c, d, e, f, k);
  }

  lemma LinksPresence(p: Package)
    ensures LinkValue(p, "license") == Quoted(p.license)
    ensures LinkValue(p, "license-file") == Quoted(p.licenseFile)
    ensures LinkValue(p, "readme") == ReadmeValue(p.readme)
    ensures LinkValue(p, "homepage") == Quoted(p.homepage)
    ensures LinkValue(p, "repository") == Quoted(p.repository)
    ensures LinkValue(p, "documentation") == Quoted(p.documentation)
  {
  }

  lemma LinksKeyOrder(p: Package)
    ensures Keys(Links(p)) == Filter(LinkKeys, k => LinkValue(p, k).Some?)
  {
    var q := k => LinkValue(p, k).Some?;
    var a, b, c := StrField("license", p.license), StrField("license-file", p.licenseFile), ReadmeField(p.readme);
    var d, e, f := StrField("homepage", p.homepage), StrField("repository", p.repository), StrField("documentation", p.documentation);
    KeysSixPieces(a, b, c, d, e, f,
      "license", "license-file", "readme", "homepage", "repository", "documentation",
      Quoted(p.license).Some?, Quoted(p.licenseFile).Some?, ReadmeValue(p.readme).Some?, Quoted(p.homepage).Some?, Quoted(p.repository).Some?, Quoted(p.documentation).Some?);
    LinksPresence(p);
    FilterSix("license", "license-file", "readme", "homepage", "repository", "documentation", q);
  }

  lemma ContentsLookup(p: Package, k: string)
    ensures Lookup(Contents(p), k) == ContentValue(p, k)
  {
    var a, b, c := ListField("exclude", p.excludeGlobs), ListField("include", p.includeGlobs), StrField("links", p.links);
    var d, e, f := [Entry("edition", Quote(p.edition))], PublishField(p.publish), StrField("default-run", p.defaultRun);
    LookupPiece(a, "exclude", k, ListValue(p.excludeGlobs));
    LookupPiece(b, "include", k, ListValue(p.includeGlobs));
    LookupPiece(c, "links", k, Quoted(p.links));
    LookupPiece(d, "edition", k, Some(Quote(p.edition)));
    LookupPiece(e, "publish", k, PublishValue(p.publish));
    LookupPiece(f, "default-run", k, Quoted(p.defaultRun));
    LookupSix(a, b, c, d, e, f, k);
  }

  lemma ContentsPresence(p: Package)
    ensures ContentValue(p, "exclude") == ListValue(p.excludeGlobs)
    ensures ContentValue(p, "include") == ListValue(p.includeGlobs)
    ensures ContentValue(p, "links") == Quoted(p.links)
    ensures ContentValue(p, "edition").Some?
    ensures ContentValue(p, "publish") == PublishValue(p.publish)
    ensures ContentValue(p, "default-run") == Quoted(p.defaultRun)
  {
  }

  lemma ContentsKeyOrder(p: Package)
    ensures Keys(Contents(p)) == Filter(ContentKeys, k => ContentValue(p, k).Some?)
  {
    var q := k => ContentValue(p, k).Some?;
    var a, b, c := ListField("exclude", p.excludeGlobs), ListField("include", p.includeGlobs), StrField("links", p.links);
    var d, e, f := [Entry("edition", Quote(p.edition))], PublishField(p.publish), StrField("default-run", p.defaultRun);
    KeysSixPieces(a, b, c, d, e, f,
      "exclude", "include", "links", "edition", "publish", "default-run",
      ListValue(p.excludeGlobs).Some?, ListValue(p.includeGlobs).Some?, Quoted(p.links).Some?, true, PublishValue(p.publish).Some?, Quoted(p.defaultRun).Some?);
    ContentsPresence(p);
    FilterSix("exclude", "include", "links", "edition", "publish", "default-run", q);
  }

  lemma DiscoveryLookup(extra: ManifestExtra, ts: seq<Target>, k: string)
    ensures Lookup(Discovery(extra, ts), k) == DiscoveryValue(extra, ts, k)
  {
    var a, b, c := FlagField("autobenches", extra.autobenches), FlagField("autobins", extra.autobins), FlagField("autoexamples", extra.autoexamples);
    var d, e := FlagField("autotests", extra.autotests), StrField("build", BuildScript(ts));
    LookupPiece(a, "autobenches", k, Unless(extra.autobenches));
    LookupPiece(b, "autobins", k, Unless(extra.autobins));
    LookupPiece(c, "autoexamples", k, Unless(extra.autoexamples));
    LookupPiece(d, "autotests", k, Unless(extra.autotests));
    LookupPiece(e, "build", k, BuildValue(ts));
    LookupFive(a, b, c, d, e, k);
  }

  lemma DiscoveryPresence(extra: ManifestExtra, ts: seq<Target>)
    ensures DiscoveryValue(extra, ts, "autobenches") == Unless(extra.autobenches)
    ensures DiscoveryValue(extra, ts, "autobins") == Unless(extra.autobins)
    ensures DiscoveryValue(extra, ts, "autoexamples") == Unless(extra.autoexamples)
    ensures DiscoveryValue(extra, ts, "autotests") == Unless(extra.autotests)
    ensures DiscoveryValue(extra, ts, "build") == BuildValue(ts)
  {
  }

  lemma DiscoveryKeyOrder(extra: ManifestExtra, ts: seq<Target>)
    ensures Keys(Discovery(extra, ts)) == Filter(DiscoveryKeys, k => DiscoveryValue(extra, ts, k).Some?)
  {
    var q := k => DiscoveryValue(extra, ts, k).Some?;
    var a, b, c := FlagField("autobenches", extra.autobenches), FlagField("autobins", extra.autobins), FlagField("autoexamples", extra.autoexamples);
    var d, e := FlagField("autotests", extra.autotests), StrField("build", BuildScript(ts));
    KeysFivePieces(a, b, c, d, e,
      "autobenches", "autobins", "autoexamples", "autotests", "build",
      Unless(extra.autobenches).Some?, Unless(extra.autobins).Some?, Unless(extra.autoexamples).Some?, Unless(extra.autotests).Some?, BuildValue(ts).Some?);
    DiscoveryPresence(extra, ts);
    FilterFive("autobenches", "autobins", "autoexamples", "autotests", "build", q);
  }

  /** No key belongs to two groups. */
  lemma GroupsDisjoint(k: string)
    ensures k in IdentityKeys ==> k !in LinkKeys && k !in ContentKeys && k !in DiscoveryKeys
    ensures k in LinkKeys ==> k !in ContentKeys && k !in DiscoveryKeys
    ensures k in ContentKeys ==> k !in DiscoveryKeys
  {
  }

  /** Each group's value function is silent outside its own keys. */
  lemma GroupsSilentOutside(m: Manifest, extra: ManifestExtra, k: string)
    ensures k !in IdentityKeys ==> IdentityValue(m.package, k) == None
    ensures k !in LinkKeys ==> LinkValue(m.package, k) == None
    ensures k !in ContentKeys ==> ContentValue(m.package, k) == None
    ensures k !in DiscoveryKeys ==> DiscoveryValue(extra, m.targets, k) == None
  {
  }

  /** Each key's lookup in the `[package]` table gives exactly the value
      the manifest determines for it. */
  lemma PackageLookup(m: Manifest, extra: ManifestExtra, k: string)
    ensures Lookup(PackageEntries(m, extra), k) == PackageValue(m, extra, k)
  {
    IdentityLookup(m.package, k);
    LinksLookup(m.package, k);
    ContentsLookup(m.package, k);
    DiscoveryLookup(extra, m.targets, k);
    GroupsDisjoint(k);
    GroupsSilentOutside(m, extra, k);
    LookupFour(Identity(m.package), Links(m.package), Contents(m.package), Discovery(extra, m.targets), k);
  }

  /** On a group's own keys, what is written is what the group writes. */
  lemma WrittenInGroups(m: Manifest, extra: ManifestExtra)
    ensures Filter(IdentityKeys, Written(m, extra)) == Filter(IdentityKeys, k => IdentityValue(m.package, k).Some?)
    ensures Filter(LinkKeys, Written(m, extra)) == Filter(LinkKeys, k => LinkValue(m.package, k).Some?)
    ensures Filter(ContentKeys, Written(m, extra)) == Filter(ContentKeys, k => ContentValue(m.package, k).Some?)
    ensures Filter(DiscoveryKeys, Written(m, extra))
         == Filter(DiscoveryKeys, k => DiscoveryValue(extra, m.targets, k).Some?)
  {
    var w := Written(m, extra);
    forall i | 0 <= i < |LinkKeys| ensures w(LinkKeys[i]) == LinkValue(m.package, LinkKeys[i]).Some? {
      GroupsDisjoint(LinkKeys[i]);
    }
    forall i | 0 <= i < |ContentKeys| ensures w(ContentKeys[i]) == ContentValue(m.package, ContentKeys[i]).Some? {
      GroupsDisjoint(ContentKeys[i]);
    }
    forall i | 0 <= i < |DiscoveryKeys|
      ensures w(DiscoveryKeys[i]) == DiscoveryValue(extra, m.targets, DiscoveryKeys[i]).Some?
    {
      GroupsDisjoint(DiscoveryKeys[i]);
    }
    FilterCongruent(IdentityKeys, w, k => IdentityValue(m.package, k).Some?);
    FilterCongruent(LinkKeys, w, k => LinkValue(m.package, k).Some?);
    FilterCongruent(ContentKeys, w, k => ContentValue(m.package, k).Some?);
    FilterCongruent(DiscoveryKeys, w, k => DiscoveryValue(extra, m.targets, k).Some?);
  }

  /** The `[package]` table holds exactly the keys the manifest gives a
      value, in the fixed order of `PackageKeyOrder`. */
  lemma PackageKeyOrdering(m: Manifest, extra: ManifestExtra)
    ensures Keys(PackageEntries(m, extra)) == Filter(PackageKeyOrder, Written(m, extra))
  {
    var w := Written(m, extra);
    IdentityKeyOrder(m.package);
    LinksKeyOrder(m.package);
    ContentsKeyOrder(m.package);
    DiscoveryKeyOrder(extra, m.targets);
    WrittenInGroups(m, extra);
    var a, b, c, d := Identity(m.package), Links(m.package), Contents(m.package), Discovery(extra, m.targets);
    KeysAppend(c, d);
    KeysAppend(b, c + d);
    KeysAppend(a, b + (c + d));
    FilterAppend(ContentKeys, DiscoveryKeys, w);
    FilterAppend(LinkKeys, ContentKeys + DiscoveryKeys, w);
    FilterAppend(IdentityKeys, LinkKeys + (ContentKeys + DiscoveryKeys), w);
  }

  /** A package that sets nothing optional and keeps every convention gets
      exactly its `name`, `version` and `edition` lines. */
  lemma MinimalPackage(m: Manifest, extra: ManifestExtra)
    requires var p := m.package;
      p.description.None? && p.authors == [] && p.keywords == [] && p.categories == []
      && p.license.None? && p.licenseFile.None? && (p.readme.None? || p.readme == Some("README.md"))
      && p.homepage.None? && p.repository.None? && p.documentation.None?
      && p.excludeGlobs == [] && p.includeGlobs == [] && p.links.None? && p.publish.None? && p.defaultRun.None?
    requires extra.autobenches && extra.autobins && extra.autoexamples && extra.autotests
    requires forall i :: 0 <= i < |m.targets| ==> !m.targets[i].kind.CustomBuild?
    ensures PackageEntries(m, extra)
         == [Entry("name", Quote(m.package.name)), Entry("version", Quote(m.package.version)),
             Entry("edition", Quote(m.package.edition))]
  {
  }

  /** Only the last custom-build target decides the `build` line, however
      many other targets follow it. */
  lemma LastBuildScriptWins(ts: seq<Target>, t: Target, us: seq<Target>)
    requires t.kind.CustomBuild?
    requires forall j :: 0 <= j < |us| ==> !us[j].kind.CustomBuild?
    ensures BuildScript(ts + [t] + us) == if t.path == "build.rs" then None else Some(t.path)
  {
    var all := ts + [t] + us;
    assert all[|ts|] == t;
    forall j | |ts| < j < |all| ensures !all[j].kind.CustomBuild? {
      assert all[j] == us[j - |ts| - 1];
    }
    assert LastBuildAt(all, |ts|);
    var r := BuildScript(all);
    if r.Some? {
      var i :| LastBuildAt(all, i) && all[i].path == r.value;
      LastBuildAtUnique(all, i, |ts|);
    }
  }
}
