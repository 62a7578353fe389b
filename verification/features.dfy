/** The `[features]` part of `render_manifest` (src/main.rs:271-289). */
module FeatureSection {
  import opened Wrappers
  import opened Strings
  import opened TomlStr
  import opened TomlDecode
  import opened ManifestModel

  /** Removes one leading `dep:` (Rust's `strip_prefix`). */
  function StripDep(s: string): (r: string)
    ensures IsPrefix("dep:", s) ==> "dep:" + r == s
    ensures !IsPrefix("dep:", s) ==> r == s
  {
    if IsPrefix("dep:", s) then s[4..] else s
  }

  function StripAll(specs: seq<string>): (r: seq<string>)
    ensures |r| == |specs|
    ensures forall i :: 0 <= i < |specs| ==> r[i] == StripDep(specs[i])
  {
    if |specs| == 0 then [] else [StripDep(specs[0])] + StripAll(specs[1..])
  }

  /** One feature: its recorded comment, then `name = [..]` with the
      stripped specs as a flat array of strings. */
  function FeatureLine(f: Feature, comments: map<string, string>): string
  {
    CommentFor("features." + f.name, comments) + f.name + " = " + FlatArray(QuoteAll(StripAll(f.specs))) + "\n"
  }

  /** A comment recorded under `features.<name>` is written immediately
      before the feature's line. */
  lemma FeatureCommentWritten(f: Feature, comments: map<string, string>)
    requires "features." + f.name in comments
    ensures FeatureLine(f, comments)
         == comments["features." + f.name] + (f.name + " = " + FlatArray(QuoteAll(StripAll(f.specs))) + "\n")
  {
  }

  function FeatureLines(fs: seq<Feature>, comments: map<string, string>): string
  {
    if |fs| == 0 then "" else FeatureLine(fs[0], comments) + FeatureLines(fs[1..], comments)
  }

  /** The block is written only when there is a feature. */
  function FeaturesText(fs: seq<Feature>, comments: map<string, string>): (r: string)
    ensures fs == [] <==> r == ""
  {
    if |fs| == 0 then "" else "\n[features]\n" + FeatureLines(fs, comments)
  }

  /** Only the first `dep:` goes: `dep:dep:x` becomes `dep:x`. */
  lemma StripDepOnce(s: string)
    ensures StripDep("dep:" + s) == s
  {
    assert ("dep:" + s)[..4] == "dep:";
    assert ("dep:" + s)[4..] == s;
  }

  /** A feature's array reads back as its specs, in stored order, each with
      exactly one leading `dep:` removed and otherwise unchanged. */
  lemma FeatureValueDecodes(f: Feature)
    ensures var xs := ParseFlatArray(FlatArray(QuoteAll(StripAll(f.specs))));
      && xs.Some? && |xs.value| == |f.specs|
      && forall i :: 0 <= i < |f.specs| ==>
           (if IsPrefix("dep:", f.specs[i]) then "dep:" + xs.value[i] == f.specs[i]
            else xs.value[i] == f.specs[i])
  {
    FlatArrayRoundTrip(StripAll(f.specs));
  }
}
