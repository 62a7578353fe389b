# cargo-manifmt: a Dafny model of the canonical manifest writer

cargo-manifmt rewrites a package's `Cargo.toml` in one canonical layout.
The tool has two halves. The first recovers `#` comments from the
original text, keyed by the table and key they stand above. The second
writes out cargo's parsed manifest: the `[package]` table in a fixed key
order, the custom metadata, the target tables, the dependency sections and
the features. A recovered comment is written back only above a
dependency (src/main.rs:401-410) or a feature (src/main.rs:284-285).
Comments above `[package]` keys, target tables, metadata entries,
`[dev-dependencies]` entries and `[build-dependencies]` entries are
recovered but not written.

This project models that text-level logic of `src/main.rs` as pure
functions over immutable records, and proves what each piece promises.

## Modules

- `CommentScanner` (comment_scanner.dfy): the comment-recovery scan of
  `parse_manifest`. It covers `str::lines`, `str::trim` with Rust's
  whitespace set, the longest `[A-Za-z0-9_-]` key prefix and line
  classification. The loop is a fold of one step function over the
  classified lines, and the method `ScanComments` runs it as a loop.
- `TomlStr` (toml_str.dfy): `TomlDisplay for &str`, `TomlFlatArray` and
  `TomlPrettyArray`.
- `TomlDecode` (toml_decode.dfy): a reader for the strings and arrays
  the writer produces. The tool has no such reader; it exists here so
  the encoder can be proved half of a round trip.
- `TomlVersion` (toml_version.dfy): `TomlVersion`. This is the leftmost
  match of the unanchored pattern `^M(.m(.p)?)?`, with greedy digit groups
  and absent groups written as `0`.
- `TargetTables` (render_target.dfy): `render_target`. It covers the
  conventional-path test, the body lines, the header and the `name` rule.
- `TargetOrder` (target_order.dfy): the bucketing loop of
  `render_manifest`. The last library wins; binaries, examples, tests and
  benches keep manifest order.
- `DependencyLines` (render_dependency.dfy): `render_dependency`. It
  covers the comment key, the bare form versus the inline table, and the
  field order.
- `DependencySections` (dependency_sections.dfy): the dependency grouping
  of `render_manifest`. It covers the platform map, the dev and build
  groups, the stable sort by `name_in_toml` and empty-group omission.
- `FeatureSection` (features.dfy): the `[features]` block and `dep:`
  stripping.
- `MetadataTables` (render_metadata.dfy): `render_metadata` over a tree
  of tables, arrays and pre-rendered scalars.
- `PackageSection` (package_section.dfy): the `[package]` table. Each of
  its four groups of keys has a reference value function, and each is
  proved equal to what is written.
- `CommentPlacement` (comment_placement.dfy): the scan and the renderer
  together. A `#` block recovered above a dependency or feature key is
  written back in front of that dependency or feature.
- `CanonicalManifest` (render_manifest.dfy): `render_manifest` assembled
  from the parts above, with worked examples.
- Support modules: `ManifestModel` (manifest.dfy) holds the records and
  key/value lines. `Strings` and `Sorting` hold string order, joins, the
  stable insertion sort and filters. `Wrappers` holds `Option`.

### Where the model follows the code

Some of the code's behaviour is easy to misread. The model does what the
code does in each of these places:

- A `[..]` header line does not clear the pending comment
  (src/main.rs:66-67). Every line other than a header or a `#` line does
  clear it, including a blank line (src/main.rs:71-82).
- A key line records an entry even when the pending comment is empty
  (src/main.rs:76-81).
- In an inline dependency table, `version` is inserted at index 0, in
  front of every other field (src/main.rs:445).
- `render_metadata` writes a table's own header and plain lines first and
  its sub-tables after them. The header is written only when the table
  has a non-table entry (src/main.rs:318-323).
- A dependency's comment is looked up under
  `dependencies.<name>` or `target.<platform>.dependencies.<name>` for
  every kind of dependency (src/main.rs:401-408). The scanner records a
  comment above a `[dev-dependencies]` entry under
  `dev-dependencies.<name>`, so that comment is not written back. The
  same holds for a `[build-dependencies]` entry, recorded under
  `build-dependencies.<name>`. `DependencyLines.DevCommentNotWritten` and
  `DependencyLines.BuildCommentNotWritten` state this.
- The array width test `s.len() > 100` counts UTF-8 bytes
  (src/main.rs:309). It is modelled with `Utf8Len`.

## Model

| member | source | states |
|---|---|---|
| CommentScanner.ScanComments | src/main.rs:57-86 | The map returned by the scan loop equals the fold of the per-line step. A qualified key is in it exactly when some line is a key line for that key. |
| CommentScanner.ScanLines | src/main.rs:64-84 | The loop over classified lines computes the same map as the fold of the step function. |
| CommentScanner.StepSpec | src/main.rs:64-83 | A `#` line appends itself plus a newline to the pending comment. A header sets the current table to its inner text verbatim and keeps the pending comment. Any other line empties the pending comment. When the line has a key, the pending comment is stored under `table.key`; otherwise the map is unchanged. |
| CommentScanner.BlankLineClears | src/main.rs:71-82 | An all-whitespace line clears the pending comment and records nothing. |
| CommentScanner.ClassifySpec | src/main.rs:65-75 | After trimming, a line is a header iff it starts with `[` and ends with `]`, and the header name is what lies between them. A comment line starts with `#` and is kept whole. Any other line is read for its longest key prefix. |
| CommentScanner.KeyPrefix | src/main.rs:72-75 | The key is a prefix of the line made only of ASCII letters, digits, `-` and `_`, and it is maximal. |
| CommentScanner.TrimKeepsMiddle | src/main.rs:65 | Trimming keeps one contiguous middle slice of the line. |
| CommentScanner.TrimDropsWhitespace | src/main.rs:65 | Everything trimming removes, at either end, is whitespace. |
| CommentScanner.TrimmedEnds | src/main.rs:65 | A non-empty trimmed line neither starts nor ends with whitespace. |
| CommentScanner.Lines | src/main.rs:64 | No line contains a newline. |
| CommentScanner.LinesRoundTrip | src/main.rs:64 | Joining the lines with newlines gives back the text when it does not end in a newline. When it does, the join plus one newline gives it back, so a final newline starts no empty last line. |
| CommentScanner.TableIsLastHeader | src/main.rs:66-67 | The current table is the name of the last header seen, or empty before the first header. |
| CommentScanner.PendingIsBlock | src/main.rs:68-70 | Since the last clearing line, the pending comment is exactly the `#` lines seen, each followed by a newline. Headers add nothing. |
| CommentScanner.RecordedIff | src/main.rs:76-81 | A qualified key is in the map iff some line has that table and a non-empty key. |
| CommentScanner.LastKeyLineWins | src/main.rs:76-81 | The value stored under a key is the pending comment as it stood at the last key line for that key. Later lines for the same key overwrite earlier ones. |
| CommentScanner.CommentAttached | src/main.rs:57-86 | Under the key of its last key line, the map holds exactly the `#` lines between that line and the previous clearing line. |
| TomlStr.Quote | src/main.rs:558-582 | A string with a `"` and no `'` is written `'s'`. Any other string is written between double quotes with every character escaped. |
| TomlStr.EscapeChar | src/main.rs:567-578 | Backspace, tab, newline, form feed, carriage return, `"` and `\` become two-character escapes. Other characters below U+001F become `\u00XY` in uppercase hex. Everything else, including U+001F, is copied. |
| TomlStr.Hex4 | src/main.rs:576 | `{:04X}` always gives four digits. |
| TomlStr.EscapePlain | src/main.rs:577 | Text with no character needing an escape is its own escaped body. |
| TomlStr.QuotePlain | src/main.rs:566-580 | Plain text without `"` is written between double quotes unchanged. |
| TomlDecode.QuoteRoundTrip | src/main.rs:558-582 | Reading a written string back gives the original text and leaves whatever follows untouched. |
| TomlDecode.UnquoteQuote | src/main.rs:558-582 | Unquoting inverts quoting. |
| TomlDecode.QuoteInjective | src/main.rs:558-582 | Distinct strings are written differently. |
| TomlDecode.LiteralBodyRoundTrip | src/main.rs:560-564 | The single-quoted form reads back as its text. |
| TomlDecode.EscapeCharRoundTrip | src/main.rs:567-578 | Each escaped character decodes to itself. |
| TomlDecode.BasicBodyRoundTrip | src/main.rs:566-580 | The double-quoted body decodes to the original text. |
| TomlDecode.FlatArrayRoundTrip | src/main.rs:491-500 | A flat array of strings reads back as its elements, in order, for every length. |
| TomlDecode.FlatItemsRoundTrip | src/main.rs:493-499 | Elements joined by `", "` and closed by `]` read back in order. |
| TomlDecode.PrettyArrayRoundTrip | src/main.rs:509-524 | An array in either pretty layout reads back as its elements, in order. |
| TomlDecode.PrettyItemsRoundTrip | src/main.rs:514-522 | Indented `elem,` lines read back in order. |
| TomlDecode.PrettyArrayShort | src/main.rs:509-524 | With at most one element, the pretty array is the flat array. |
| TomlDecode.FlatIsNotMultiLine | src/main.rs:510-513 | A short array never opens with `[` and a newline, so the two layouts cannot be confused. |
| TomlVersion.Spell | src/main.rs:542-544 | With no `^` followed by a digit, the requirement is written as a quoted string. |
| TomlVersion.SpellCaret | src/main.rs:532-541 | When the leftmost match captures major, minor and patch, the output is `"major.minor.patch"`. |
| TomlVersion.SpellHasMatch | src/main.rs:533-541 | Any `^` followed by a digit yields a leftmost match, and the output is then an exact version. |
| TomlVersion.CapturesMatch | src/main.rs:533 | The captures the writer takes satisfy the pattern at the leftmost position, with greedy digit runs. |
| TomlVersion.FindCaret | src/main.rs:533-534 | The position found is the first where a match can start. |
| TomlVersion.DigitRunEnd | src/main.rs:533 | A digit run is greedy: it ends at the first non-digit. |
| TomlVersion.MaximalDigitsUnique | src/main.rs:533 | A greedy digit group has exactly one capture. |
| TomlVersion.MinorGroupUnique | src/main.rs:533 | The optional minor and patch groups have exactly one capture, `0` when absent. |
| TomlVersion.SpellMinorOnly | src/main.rs:537-540 | `^1.2` is written `"1.2.0"`. |
| TomlVersion.SpellMajorOnly | src/main.rs:537-540 | `^2` is written `"2.0.0"`. |
| TomlVersion.SpellOneDigitMinor | src/main.rs:537-540 | `^a.b` is written `"a.b.0"`. |
| TomlVersion.SpellPlain | src/main.rs:542-544 | A requirement with no caret and nothing to escape is written as itself between double quotes. |
| TomlVersion.SpellRange | src/main.rs:542-544 | `>=1.0, <2.0` is written unchanged between double quotes. |
| TargetTables.TargetBodySpec | src/main.rs:354-370 | `path` is written iff the path is not conventional for the kind. `harness = false` is written iff the harness is off, and `doc = false` iff a library is undocumented. `proc-macro = true` is written iff a library has the proc-macro crate type. No other key is written. The lines come in the order proc-macro, path, harness, doc, and only `proc-macro` can repeat. |
| TargetTables.BodyLookup | src/main.rs:354-370 | Each key of the body reads back as its reference value. |
| TargetTables.ProcMacroEntries | src/main.rs:354-361 | One `proc-macro = true` line is written per proc-macro crate type, and there is one iff the crate types include proc-macro. |
| TargetTables.ProcMacroLookup | src/main.rs:354-361 | Lookup of `proc-macro` finds `true` iff the crate types include proc-macro. |
| TargetTables.TargetBodyEmpty | src/main.rs:362-371 | The body is empty iff every field is at its default. |
| TargetTables.TargetBlockSpec | src/main.rs:371-388 | A table is written iff its body is non-empty, under the kind's header. Its `name` line comes first and is omitted iff the target is the library named like the package. Every other key reads back as the body's value, and the body's lines follow the `name` line unchanged. |
| TargetTables.ConventionalLibOmitted | src/main.rs:327-390 | A default library at `src/lib.rs` writes nothing. |
| TargetTables.BinUnderSrcBinHasNoPath | src/main.rs:335-339 | A binary at `src/bin/<name>.rs` has no `path` line. |
| TargetOrder.Last | src/main.rs:185-195 | The last matching target is kept, as the loop's repeated assignment leaves it. |
| TargetOrder.RenderedTargetsRanked | src/main.rs:208-226 | Tables come library first, then binaries, examples, tests and benches. No build script is ever rendered. |
| TargetOrder.BucketsKeepOrder | src/main.rs:185-226 | Within each of the four vector buckets, targets keep manifest order. |
| TargetOrder.RenderedTargetsCount | src/main.rs:179-226 | Every binary, example, test and bench is written as often as it occurs. Only the last library is written, and no build script. |
| DependencyLines.TableFieldLookup | src/main.rs:413-446 | Each key of the inline table reads back as its reference value. `version` is omitted for `*`, `package` is written when renamed, a path or git source gives `path` or `git` plus its reference (not branch `master`), then `default-features`, `features` and `optional`. |
| DependencyLines.TableFieldOrder | src/main.rs:413-446 | The inline table holds exactly the present keys, in the order version, package, path, git, tag, branch, rev, default-features, features, optional. |
| DependencyLines.MetaLookup | src/main.rs:413-440 | The fields besides `version` read back as their reference values. |
| DependencyLines.FlagLookup | src/main.rs:432-440 | The three trailing flags read back as their reference values. |
| DependencyLines.SourceLookup | src/main.rs:417-431 | Source fields read back as their reference values. |
| DependencyLines.SourceKeys | src/main.rs:417-431 | Source keys appear in the fixed order path, git, tag, branch, rev, each iff present. |
| DependencyLines.HasFieldValue | src/main.rs:413-446 | A key is written iff its reference value exists. |
| DependencyLines.BareFormIff | src/main.rs:441-442 | The bare `name = version` form is used iff nothing but the version is needed. |
| DependencyLines.BareLine | src/main.rs:409-442 | A dependency with no recorded comment and no extra field is written `name = <spelled version>`. |
| DependencyLines.CommentWritten | src/main.rs:401-411 | A comment recorded under the dependency's key is written immediately before its line. |
| DependencyLines.DevCommentNotWritten | src/main.rs:401-411 | A comment recorded under `dev-dependencies.<name>` is not written above a dev-dependency. |
| DependencyLines.BuildCommentNotWritten | src/main.rs:401-411 | A comment recorded under `build-dependencies.<name>` is not written above a build dependency. |
| DependencyLines.BareFormExample | src/main.rs:441-442 | `bar = "^1.0"` from the registry is written `bar = "1.0.0"`. |
| DependencyLines.TableFormExample | src/main.rs:443-454 | An optional path dependency is written with fields version, path, optional, in that order. |
| DependencySections.Platforms | src/main.rs:228-239 | The platform keys are strictly increasing, with no platform first. There is one key per distinct platform of a normal dependency. |
| DependencySections.InsertPlatform | src/main.rs:234 | Adding a key keeps the key list increasing and adds exactly that key. |
| DependencySections.GroupSectionSpec | src/main.rs:241-268 | A section holds its group's dependencies sorted by `name_in_toml`, as a permutation. Equal names keep manifest order. It is empty iff no dependency belongs to the group. |
| DependencySections.SectionsNonEmpty | src/main.rs:241-269 | No written section is empty, and each holds its group's sorted dependencies. |
| DependencySections.SectionsOrdered | src/main.rs:241-269 | Sections come in strictly increasing order: normal by platform (no platform first), then dev, then build. |
| DependencySections.GroupsHaveMembers | src/main.rs:228-269 | A group gets a section iff some dependency belongs to it. |
| Sorting.SortByKey | src/main.rs:248 | `sort_by_key` gives a non-decreasing permutation, and equal keys keep their original order. |
| Sorting.Insert | src/main.rs:248 | Insertion keeps the order sorted, adds the element, and puts it before every equal key. |
| FeatureSection.StripDep | src/main.rs:278-281 | One leading `dep:` is removed; other strings are unchanged. |
| FeatureSection.StripAll | src/main.rs:274-283 | Every spec is stripped, in stored order. |
| FeatureSection.StripDepOnce | src/main.rs:278-281 | Only the first `dep:` is removed. |
| FeatureSection.FeatureCommentWritten | src/main.rs:284-287 | A comment recorded under `features.<name>` is written immediately before the feature's line. |
| FeatureSection.FeatureValueDecodes | src/main.rs:271-289 | A feature's written array reads back as its specs in stored order, each with exactly one leading `dep:` removed. |
| FeatureSection.FeaturesText | src/main.rs:271-272 | The `[features]` block is written iff there is a feature. |
| MetadataTables.ArrayLayout | src/main.rs:307-311 | An array of at most one item is flat either way. A line over 100 characters is split, and one within 25 characters never is. |
| MetadataTables.MetaBlocksLayout | src/main.rs:294-325 | No section is empty. A table's own section comes first iff it has a plain entry, and every other section lies under `prefix.`. |
| MetadataTables.MetaBlocksUnder | src/main.rs:301-323 | Each section is the table's own or a sub-table's. |
| MetadataTables.ChildBlocksUnder | src/main.rs:303-306 | Sub-table sections lie under `prefix.` and are non-empty. |
| MetadataTables.BlocksKeepLeaves | src/main.rs:294-325 | The sections hold exactly the tree's plain values, each under its table's path. |
| MetadataTables.OwnLinesInOrder | src/main.rs:301-316 | A table's own lines are the plain values held directly under its path, in entry order. Sub-tables never add to them. |
| MetadataTables.OwnSectionInOrder | src/main.rs:318-323 | When a table has plain values, its first section is its own, with those values in entry order. |
| MetadataTables.ChildKeepLeaves | src/main.rs:301-316 | A table's own lines plus its sub-tables' sections are exactly its plain values. |
| PackageSection.StrField | src/main.rs:112-114 | An optional string field is one line iff it is set. |
| PackageSection.ListField | src/main.rs:117-125 | A list field is one line iff it is non-empty. |
| PackageSection.ReadmeField | src/main.rs:132-136 | `readme` is written iff it is set and not `README.md`. |
| PackageSection.PublishField | src/main.rs:156-162 | `publish` is written iff it is set. |
| PackageSection.FlagField | src/main.rs:166-177 | An auto-discovery flag is written iff it is off. |
| PackageSection.BuildScript | src/main.rs:185-202 | When `build` is written, it names the path of the last custom-build target, and that path is not `build.rs`. When it is not written, there is no custom-build target or the last one is at `build.rs`. |
| PackageSection.LastBuildScriptWins | src/main.rs:185-202 | A custom-build target followed only by non-build targets alone decides the `build` line: its path, unless that is `build.rs`. |
| PackageSection.PackageHeader | src/main.rs:111 | The table opens with `[package]`. |
| PackageSection.IdentityLookup | src/main.rs:112-125 | The name, description, version, authors, keywords and categories lines read back as their reference values. |
| PackageSection.IdentityKeyOrder | src/main.rs:112-125 | Those keys appear in that fixed order, each iff it has a value. |
| PackageSection.IdentityPresence | src/main.rs:112-125 | `name` and `version` are always written, and each other key follows its field. |
| PackageSection.LinksLookup | src/main.rs:126-145 | The license through documentation lines read back as their reference values. |
| PackageSection.LinksKeyOrder | src/main.rs:126-145 | Those keys appear in fixed order, each iff it has a value. |
| PackageSection.LinksPresence | src/main.rs:126-145 | Each key follows its field, and `readme` skips `README.md`. |
| PackageSection.ContentsLookup | src/main.rs:146-165 | The exclude through default-run lines read back as their reference values. |
| PackageSection.ContentsKeyOrder | src/main.rs:146-165 | Those keys appear in fixed order, each iff it has a value. |
| PackageSection.ContentsPresence | src/main.rs:146-165 | `edition` is always written, and each other key follows its field. |
| PackageSection.DiscoveryLookup | src/main.rs:166-202 | The auto flags and `build` read back as their reference values. |
| PackageSection.DiscoveryKeyOrder | src/main.rs:166-202 | Those keys appear in fixed order, each iff it has a value. |
| PackageSection.DiscoveryPresence | src/main.rs:166-202 | Each flag is written iff it is off. `build` follows the last build script. |
| PackageSection.PackageLookup | src/main.rs:111-202 | Every key of `[package]` reads back as the value the manifest determines for it. |
| PackageSection.PackageKeyOrdering | src/main.rs:111-202 | `[package]` holds exactly the keys with a value, in the fixed order name, description, …, autotests, build. |
| PackageSection.MinimalPackage | src/main.rs:111-202 | A package that keeps every default gets only name, version and edition. |
| CommentPlacement.DependencyCommentRestored | src/main.rs:401-411 | Take the comment map the scan builds. Suppose the last key line for a dependency's key is preceded by a run of `#` and header lines that starts after a clearing line. Then the dependency's line is written with exactly those `#` lines in front. |
| CommentPlacement.FeatureCommentRestored | src/main.rs:284-287 | The same holds for a feature under `features.<name>`. |
| CommentPlacement.DependencyWithoutKeyLine | src/main.rs:401-411 | A dependency whose key no line carries is written with no comment in front. |
| CanonicalManifest.RenderStartsWithPackage | src/main.rs:111-290 | The output opens with the `[package]` table. |
| CanonicalManifest.PackageOnly | src/main.rs:204-289 | With no metadata, targets, dependencies or features, the output is just `[package]`. |
| CanonicalManifest.QuietParts | src/main.rs:204-289 | Without metadata, target tables or features, the output is `[package]` followed by the dependency sections. |
| CanonicalManifest.LoneConventionalLib | src/main.rs:208-226 | A lone conventional library writes no target table. |
| CanonicalManifest.LoneDependency | src/main.rs:241-253 | A single plain dependency gets `[dependencies]` to itself. |
| CanonicalManifest.MinimalPackageText | src/main.rs:111-177 | A minimal package with plain text is three quoted lines. |
| CanonicalManifest.FooExample | src/main.rs:100-290 | Package `foo` with a conventional library and `bar = "^1.0"` is written exactly as a `[package]` table of name, version and edition, then a `[dependencies]` section holding `bar = "1.0.0"`. |

## Left out

- `main` and `run` (src/main.rs:33-52): workspace discovery, cargo's
  configuration and writing the file back. These are process and file
  I/O.
- `toml::from_str` and the `autobenches`/`autobins`/`autoexamples`/
  `autotests` lookups (src/main.rs:88-97). They belong to a foreign TOML
  parser; the four flags are inputs of `ManifestExtra`.
- `rel_path` (src/main.rs:459-464). It belongs to a foreign path library;
  target, build-script and dependency paths are given already relative.
- `Display` for `toml::Value` (src/main.rs:314, 552-556). This is a
  foreign formatter; metadata scalars and array items are given as
  already-rendered text.
- Cargo's `Platform` ordering. Platforms are ordered as plain strings
  (code-point order), with no platform first.
- `VersionReq::to_string`. Version requirements are given as their
  display text.
- The `BTreeMap` order of metadata keys and feature names. Entries are
  taken in the order given.
- `io::Result` writer errors. Output is a returned string, not a
  fallible sink.
- Full regular-expression semantics. Only the one pattern at
  src/main.rs:533 is modelled.
- The `unreachable!()` panic on a build script's header
  (src/main.rs:381). `RenderTarget` requires a non-build-script target.
  The rendered target list never holds one (`RenderedTargetsRanked`).
- MetadataTables.ArrayLayout: the layout is decided by the UTF-8 byte
  length. The lemma states the result only where the character count
  decides it: at most one item, over 100 characters, or within 25.
- TomlVersion.Spell: its own contract covers only the no-match case.
  The match case is stated by `SpellCaret` and `SpellHasMatch`.
- FeatureSection.FeaturesText: its own contract states only when the
  block is written. The values are stated by `FeatureValueDecodes`.
