/** The structured manifest the renderer reads (cargo's `Manifest`,
    `Target` and `Dependency`, reduced to the fields src/main.rs uses), the
    extra facts `parse_manifest` recovers, and the `key = value` entries
    the renderer writes. */
module ManifestModel {
  import opened Wrappers
  import opened Strings

  datatype CrateType = ProcMacro | OtherCrateType(name: string)

  datatype TargetKind =
    | Lib(crateTypes: seq<CrateType>)
    | Bin
    | Test
    | Bench
    | ExampleLib(crateTypes: seq<CrateType>)
    | ExampleBin
    | CustomBuild

  /** A build target; `path` is its source path relative to the package
      root. */
  datatype Target = Target(kind: TargetKind, name: string, path: string, harness: bool, documented: bool)
  {
    predicate IsLib() { kind.Lib? }
  }

  datatype GitReference = Tag(tag: string) | Branch(branch: string) | Rev(rev: string) | DefaultBranch

  /** Where a dependency comes from; a local path is relative to the
      package root. */
  datatype SourceKind = Registry | LocalPath(path: string) | Git(url: string, reference: GitReference)

  datatype DepKind = Normal | Development | Build

  /** A dependency; `versionReq` is the display text of its requirement and
      `platform` the display text of its target platform, if any. */
  datatype Dependency = Dependency(
    nameInToml: string,
    packageName: string,
    versionReq: string,
    source: SourceKind,
    kind: DepKind,
    platform: Option<string>,
    usesDefaultFeatures: bool,
    features: seq<string>,
    optional: bool)

  /** A custom-metadata value; scalars and array items are carried as the
      text their TOML display produces. */
  datatype MetaValue = Table(entries: seq<MetaEntry>) | Array(items: seq<string>) | Scalar(text: string)
  datatype MetaEntry = MetaEntry(key: string, value: MetaValue)

  /** A feature and its activation specs, as displayed. */
  datatype Feature = Feature(name: string, specs: seq<string>)

  datatype Package = Package(
    name: string,
    description: Option<string>,
    version: string,
    authors: seq<string>,
    keywords: seq<string>,
    categories: seq<string>,
    license: Option<string>,
    licenseFile: Option<string>,
    readme: Option<string>,
    homepage: Option<string>,
    repository: Option<string>,
    documentation: Option<string>,
    excludeGlobs: seq<string>,
    includeGlobs: seq<string>,
    links: Option<string>,
    edition: string,
    publish: Option<seq<string>>,
    defaultRun: Option<string>)

  datatype Manifest = Manifest(
    package: Package,
    targets: seq<Target>,
    dependencies: seq<Dependency>,
    features: seq<Feature>,
    customMetadata: Option<MetaValue>)

  /** What `parse_manifest` recovers from the text beside the structured
      manifest: the four auto-discovery flags and the comment map. */
  datatype ManifestExtra = ManifestExtra(
    autobenches: bool,
    autobins: bool,
    autoexamples: bool,
    autotests: bool,
    comments: map<string, string>)

  /** The comment block recorded for a qualified key, if any. */
  function CommentFor(key: string, comments: map<string, string>): string
  {
    if key in comments then comments[key] else ""
  }

  /** One `key = value` line. */
  datatype Entry = Entry(key: string, value: string)

  function EntryText(e: Entry): string
  {
    e.key + " = " + e.value + "\n"
  }

  function EntriesText(es: seq<Entry>): string
  {
    if |es| == 0 then "" else EntryText(es[0]) + EntriesText(es[1..])
  }

  function Keys(es: seq<Entry>): (ks: seq<string>)
    ensures |ks| == |es|
    ensures forall i :: 0 <= i < |es| ==> ks[i] == es[i].key
  {
    if |es| == 0 then [] else [es[0].key] + Keys(es[1..])
  }

  lemma KeysAppend(a: seq<Entry>, b: seq<Entry>)
    ensures Keys(a + b) == Keys(a) + Keys(b)
  {
  }

  /** The value of the first entry with key `k`. */
  function Lookup(es: seq<Entry>, k: string): Option<string>
  {
    if |es| == 0 then None
    else if es[0].key == k then Some(es[0].value)
    else Lookup(es[1..], k)
  }

  lemma {:induction false} LookupAppend(a: seq<Entry>, b: seq<Entry>, k: string)
    ensures Lookup(a + b, k) == if Lookup(a, k).Some? then Lookup(a, k) else Lookup(b, k)
  {
    if |a| > 0 {
      assert (a + b)[1..] == a[1..] + b;
      LookupAppend(a[1..], b, k);
    } else {
      assert a + b == b;
    }
  }

  lemma {:induction false} LookupAbsent(es: seq<Entry>, k: string)
    ensures Lookup(es, k).None? <==> k !in Keys(es)
  {
    if |es| > 0 {
      LookupAbsent(es[1..], k);
      assert Keys(es) == [es[0].key] + Keys(es[1..]);
    }
  }

  /** A line that is written only when `c` holds. */
  function Optional(c: bool, e: Entry): (r: seq<Entry>)
    ensures |r| <= 1
  {
    if c then [e] else []
  }

  lemma LookupOptional(c: bool, e: Entry, rest: seq<Entry>, k: string)
    ensures Lookup(Optional(c, e) + rest, k)
         == if c && e.key == k then Some(e.value) else Lookup(rest, k)
  {
    LookupAppend(Optional(c, e), rest, k);
  }

  /** A run of at most one line, all under `key`. */
  predicate AtMostOne(piece: seq<Entry>, key: string)
  {
    |piece| <= 1 && (|piece| == 1 ==> piece[0].key == key)
  }

  lemma LookupAtMostOne(piece: seq<Entry>, key: string, k: string)
    requires AtMostOne(piece, key)
    ensures Lookup(piece, k) == if k == key && piece != [] then Some(piece[0].value) else None
    ensures Keys(piece) == if piece != [] then [key] else []
  {
    if piece != [] {
      assert piece[1..] == [];
    }
  }

  lemma LookupThree(d: seq<Entry>, e: seq<Entry>, f: seq<Entry>, k: string)
    ensures Lookup(d + (e + f), k) == Lookup(d, k).Or(Lookup(e, k).Or(Lookup(f, k)))
  {
    LookupAppend(e, f, k);
    LookupAppend(d, e + f, k);
  }

  lemma LookupFour(c: seq<Entry>, d: seq<Entry>, e: seq<Entry>, f: seq<Entry>, k: string)
    ensures Lookup(c + (d + (e + f)), k) == Lookup(c, k).Or(Lookup(d, k).Or(Lookup(e, k).Or(Lookup(f, k))))
  {
    LookupThree(d, e, f, k);
    LookupAppend(c, d + (e + f), k);
  }

  lemma LookupFive(b: seq<Entry>, c: seq<Entry>, d: seq<Entry>, e: seq<Entry>, f: seq<Entry>, k: string)
    ensures Lookup(b + (c + (d + (e + f))), k)
         == Lookup(b, k).Or(Lookup(c, k).Or(Lookup(d, k).Or(Lookup(e, k).Or(Lookup(f, k)))))
  {
    LookupFour(c, d, e, f, k);
    LookupAppend(b, c + (d + (e + f)), k);
  }

  /** Lookup through six consecutive runs, front to back. */
  lemma LookupSix(a: seq<Entry>, b: seq<Entry>, c: seq<Entry>, d: seq<Entry>, e: seq<Entry>, f: seq<Entry>, k: string)
    ensures Lookup(a + (b + (c + (d + (e + f)))), k)
         == Lookup(a, k).Or(Lookup(b, k).Or(Lookup(c, k).Or(Lookup(d, k).Or(Lookup(e, k).Or(Lookup(f, k))))))
  {
    LookupFive(b, c, d, e, f, k);
    LookupAppend(a, b + (c + (d + (e + f))), k);
  }

  lemma KeysFive(b: seq<Entry>, c: seq<Entry>, d: seq<Entry>, e: seq<Entry>, f: seq<Entry>)
    ensures Keys(b + (c + (d + (e + f)))) == Keys(b) + (Keys(c) + (Keys(d) + (Keys(e) + Keys(f))))
  {
    KeysAppend(b, c + (d + (e + f)));
    KeysAppend(c, d + (e + f));
    KeysAppend(d, e + f);
    KeysAppend(e, f);
  }

  lemma KeysSix(a: seq<Entry>, b: seq<Entry>, c: seq<Entry>, d: seq<Entry>, e: seq<Entry>, f: seq<Entry>)
    ensures Keys(a + (b + (c + (d + (e + f)))))
         == Keys(a) + (Keys(b) + (Keys(c) + (Keys(d) + (Keys(e) + Keys(f)))))
  {
    KeysFive(b, c, d, e, f);
    KeysAppend(a, b + (c + (d + (e + f))));
  }

  /** A `[header]` table followed by its entries. */
  datatype Block = Block(header: string, entries: seq<Entry>)

  /** A block as written: a blank line, the header line, the entries. */
  function BlockText(b: Block): string
  {
    "\n[" + b.header + "]\n" + EntriesText(b.entries)
  }

  function BlocksText(bs: seq<Block>): string
  {
    if |bs| == 0 then "" else BlockText(bs[0]) + BlocksText(bs[1..])
  }
}
