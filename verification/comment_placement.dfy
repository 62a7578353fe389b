/** Comment recovery end to end (src/main.rs:57-86 with :284-285 and
    :401-410): the `#` block that stood above a key line comes back in
    front of the dependency or feature whose key the scan recorded. */
module CommentPlacement {
  import opened ManifestModel
  import opened CommentScanner
  import opened DependencyLines
  import opened FeatureSection
  import opened TomlStr

  /** When the last key line for a dependency's key is line `i`, and line
      `k` starts the run of `#` and header lines before it, the dependency
      is written with exactly those `#` lines in front. */
  lemma DependencyCommentRestored(cs: seq<LineClass>, k: int, i: int, d: Dependency)
    requires KeyLineAt(cs, i, CommentKey(d))
    requires forall j :: i < j < |cs| ==> !KeyLineAt(cs, j, CommentKey(d))
    requires 0 <= k <= i
    requires k == 0 || cs[k - 1].Other?
    requires forall j :: k <= j < i ==> !cs[j].Other?
    ensures RenderDependency(d, Fold(cs).comments)
         == CommentBlock(cs[k..i]) + (d.nameInToml + " = " + DependencyValue(d) + "\n")
  {
    CommentAttached(cs, k, i, CommentKey(d));
    CommentWritten(d, Fold(cs).comments);
  }

  /** The same for a feature, under `features.<name>`. */
  lemma FeatureCommentRestored(cs: seq<LineClass>, k: int, i: int, f: Feature)
    requires KeyLineAt(cs, i, "features." + f.name)
    requires forall j :: i < j < |cs| ==> !KeyLineAt(cs, j, "features." + f.name)
    requires 0 <= k <= i
    requires k == 0 || cs[k - 1].Other?
    requires forall j :: k <= j < i ==> !cs[j].Other?
    ensures FeatureLine(f, Fold(cs).comments)
         == CommentBlock(cs[k..i]) + (f.name + " = " + FlatArray(QuoteAll(StripAll(f.specs))) + "\n")
  {
    CommentAttached(cs, k, i, "features." + f.name);
    FeatureCommentWritten(f, Fold(cs).comments);
  }

  /** A dependency with no key line for its key gets no comment: the scan
      records a key only where some line carries it. */
  lemma DependencyWithoutKeyLine(cs: seq<LineClass>, d: Dependency)
    requires forall j :: 0 <= j < |cs| ==> !KeyLineAt(cs, j, CommentKey(d))
    ensures RenderDependency(d, Fold(cs).comments) == d.nameInToml + " = " + DependencyValue(d) + "\n"
  {
    RecordedIff(cs, CommentKey(d));
  }
}
