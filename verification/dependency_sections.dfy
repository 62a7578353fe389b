/** The dependency part of `render_manifest` (src/main.rs:228-269): normal
    dependencies grouped by platform, then dev- and build-dependencies;
    each group sorted stably by key and written only when non-empty. */
module DependencySections {
  import opened Wrappers
  import opened Strings
  import opened Sorting
  import opened TomlStr
  import opened ManifestModel
  import opened DependencyLines

  // ---------------------------------------------------------------------
  // Platform keys, in the order of the map that groups them

  /** `Option<Platform>` order: no platform first, then platforms by their
      text. */
  predicate PlatformLt(a: Option<string>, b: Option<string>)
  {
    (a.None? && b.Some?) || (a.Some? && b.Some? && LexLt(a.value, b.value))
  }

  lemma PlatformLtTransitive(a: Option<string>, b: Option<string>, c: Option<string>)
    requires PlatformLt(a, b) && PlatformLt(b, c)
    ensures PlatformLt(a, c)
  {
    if a.Some? {
      LexLeTransitive(a.value, b.value, c.value);
      if a.value == c.value {
        LexLeAntisymmetric(a.value, b.value);
      }
    }
  }

  lemma PlatformLtTotal(a: Option<string>, b: Option<string>)
    ensures a == b || PlatformLt(a, b) || PlatformLt(b, a)
  {
    if a.Some? && b.Some? {
      LexLeTotal(a.value, b.value);
    }
  }

  lemma PlatformLtIrreflexive(a: Option<string>)
    ensures !PlatformLt(a, a)
  {
  }

  ghost predicate Increasing(ps: seq<Option<string>>)
  {
    forall i, j :: 0 <= i < j < |ps| ==> PlatformLt(ps[i], ps[j])
  }

  /** Adds `p` to an increasing list of keys, keeping it increasing. */
  function InsertPlatform(p: Option<string>, ps: seq<Option<string>>): (r: seq<Option<string>>)
    requires Increasing(ps)
    ensures Increasing(r)
    ensures forall q :: q in r <==> q == p || q in ps
  {
    if |ps| == 0 then [p]
    else if p == ps[0] then ps
    else if PlatformLt(p, ps[0]) then
      var r := [p] + ps;
      forall i, j | 0 <= i < j < |r| ensures PlatformLt(r[i], r[j]) {
        if i == 0 && j > 1 {
          PlatformLtTransitive(p, ps[0], ps[j - 1]);
        }
      }
      r
    else
      PlatformLtTotal(p, ps[0]);
      var rest := InsertPlatform(p, ps[1..]);
      var r := [ps[0]] + rest;
      assert ps == [ps[0]] + ps[1..];
      forall j | 0 < j < |r| ensures PlatformLt(r[0], r[j]) {
        assert r[j] in rest;
      }
      r
  }

  /** The keys of the platform map: one per distinct platform among the
      normal dependencies. */
  function Platforms(deps: seq<Dependency>): (r: seq<Option<string>>)
    ensures Increasing(r)
    ensures forall q :: q in r <==> exists i :: 0 <= i < |deps| && deps[i].kind == Normal && deps[i].platform == q
  {
    if |deps| == 0 then []
    else
      var last := deps[|deps| - 1];
      var init := Platforms(deps[..|deps| - 1]);
      var r := if last.kind == Normal then InsertPlatform(last.platform, init) else init;
      forall q | q in r ensures exists i :: 0 <= i < |deps| && deps[i].kind == Normal && deps[i].platform == q {
        if q != last.platform || last.kind != Normal {
          var i :| 0 <= i < |deps| - 1 && deps[..|deps| - 1][i].kind == Normal && deps[..|deps| - 1][i].platform == q;
          assert deps[i] == deps[..|deps| - 1][i];
        }
      }
      forall q | exists i :: 0 <= i < |deps| && deps[i].kind == Normal && deps[i].platform == q ensures q in r {
        var i :| 0 <= i < |deps| && deps[i].kind == Normal && deps[i].platform == q;
        if i < |deps| - 1 {
          assert deps[..|deps| - 1][i] == deps[i];
        }
      }
      r
  }

  // ---------------------------------------------------------------------
  // Groups and sections

  datatype Group = NormalGroup(platform: Option<string>) | DevGroup | BuildGroup

  predicate InGroup(d: Dependency, g: Group)
  {
    match g
    case NormalGroup(p) => d.kind == Normal && d.platform == p
    case DevGroup => d.kind == Development
    case BuildGroup => d.kind == Build
  }

  function Member(g: Group): Dependency -> bool
  {
    d => InGroup(d, g)
  }

  function NameOf(d: Dependency): string
  {
    d.nameInToml
  }

  /** The order groups are written in. */
  predicate GroupLt(a: Group, b: Group)
  {
    match a
    case NormalGroup(p) => !b.NormalGroup? || PlatformLt(p, b.platform)
    case DevGroup => b.BuildGroup?
    case BuildGroup => false
  }

  datatype DepSection = DepSection(group: Group, deps: seq<Dependency>)

  /** A group's dependencies, sorted stably by their key in the manifest. */
  function GroupSection(g: Group, deps: seq<Dependency>): DepSection
  {
    DepSection(g, SortByKey(Filter(deps, Member(g)), NameOf))
  }

  predicate HasMember(deps: seq<Dependency>, g: Group)
  {
    exists k :: 0 <= k < |deps| && InGroup(deps[k], g)
  }

  function NormalGroups(ps: seq<Option<string>>): (r: seq<Group>)
    ensures |r| == |ps|
    ensures forall i :: 0 <= i < |ps| ==> r[i] == NormalGroup(ps[i])
  {
    if |ps| == 0 then [] else [NormalGroup(ps[0])] + NormalGroups(ps[1..])
  }

  /** The groups that get a section, in the order they are written: one
      per platform key, then dev and build when they have members. */
  function SectionGroups(deps: seq<Dependency>): seq<Group>
  {
    NormalGroups(Platforms(deps))
    + ((if HasMember(deps, DevGroup) then [DevGroup] else [])
    + (if HasMember(deps, BuildGroup) then [BuildGroup] else []))
  }

  function Sections(deps: seq<Dependency>, gs: seq<Group>): (r: seq<DepSection>)
    ensures |r| == |gs|
    ensures forall i :: 0 <= i < |gs| ==> r[i] == GroupSection(gs[i], deps)
  {
    if |gs| == 0 then [] else [GroupSection(gs[0], deps)] + Sections(deps, gs[1..])
  }

  /** The sections written, in order. */
  function DepSections(deps: seq<Dependency>): seq<DepSection>
  {
    Sections(deps, SectionGroups(deps))
  }

  function SectionHeader(g: Group): string
  {
    match g
    case NormalGroup(None) => "dependencies"
    case NormalGroup(Some(p)) => "target." + Quote(p) + ".dependencies"
    case DevGroup => "dev-dependencies"
    case BuildGroup => "build-dependencies"
  }

  function DependencyLinesText(deps: seq<Dependency>, comments: map<string, string>): string
  {
    if |deps| == 0 then "" else RenderDependency(deps[0], comments) + DependencyLinesText(deps[1..], comments)
  }

  function SectionText(s: DepSection, comments: map<string, string>): string
  {
    "\n[" + SectionHeader(s.group) + "]\n" + DependencyLinesText(s.deps, comments)
  }

  function SectionsText(ss: seq<DepSection>, comments: map<string, string>): string
  {
    if |ss| == 0 then "" else SectionText(ss[0], comments) + SectionsText(ss[1..], comments)
  }

  // ---------------------------------------------------------------------
  // What the sections promise

  lemma {:induction false} FilterEmpty<T>(s: seq<T>, p: T -> bool)
    ensures Filter(s, p) == [] <==> forall i :: 0 <= i < |s| ==> !p(s[i])
  {
    if |s| > 0 {
      FilterEmpty(s[1..], p);
      if Filter(s[1..], p) != [] {
        var i :| 0 <= i < |s[1..]| && p(s[1..][i]);
        assert p(s[i + 1]);
      }
      forall i | 0 < i < |s| ensures s[i] == s[1..][i - 1] { }
    }
  }

  /** A non-empty group's section is non-empty, and the section of a group
      holds exactly that group's dependencies, sorted by key, with equal
      keys in input order. */
  lemma GroupSectionSpec(g: Group, deps: seq<Dependency>)
    ensures var s := GroupSection(g, deps);
      && s.group == g
      && SortedBy(s.deps, NameOf)
      && multiset(s.deps) == multiset(Filter(deps, Member(g)))
      && (forall k {:trigger KeyFilter(s.deps, NameOf, k)} ::
            KeyFilter(s.deps, NameOf, k) == KeyFilter(Filter(deps, Member(g)), NameOf, k))
      && (s.deps == [] <==> forall i :: 0 <= i < |deps| ==> !InGroup(deps[i], g))
  {
    var f := Filter(deps, Member(g));
    FilterEmpty(deps, Member(g));
    var s := GroupSection(g, deps);
    if s.deps == [] {
      assert multiset(f) == multiset{};
    }
  }

  /** Every written section holds its group's sorted dependencies, and none
      is empty. */
  lemma SectionsNonEmpty(deps: seq<Dependency>)
    ensures var ss := DepSections(deps);
      forall i :: 0 <= i < |ss| ==> |ss[i].deps| > 0 && ss[i] == GroupSection(ss[i].group, deps)
  {
    var gs := SectionGroups(deps);
    forall i | 0 <= i < |gs| ensures HasMember(deps, gs[i]) {
      GroupsHaveMembers(deps, gs[i]);
    }
    forall i | 0 <= i < |gs| ensures |GroupSection(gs[i], deps).deps| > 0 {
      GroupSectionSpec(gs[i], deps);
    }
  }

  ghost predicate GroupsIncrease(gs: seq<Group>)
  {
    forall i, j :: 0 <= i < j < |gs| ==> GroupLt(gs[i], gs[j])
  }

  /** Sections come in strictly increasing group order: no-platform normal
      dependencies, then each platform in order, then dev, then build. */
  lemma SectionsOrdered(deps: seq<Dependency>)
    ensures GroupsIncrease(SectionGroups(deps))
    ensures forall i :: 0 <= i < |DepSections(deps)| ==> DepSections(deps)[i].group == SectionGroups(deps)[i]
  {
    var ps := Platforms(deps);
    var normal := NormalGroups(ps);
    var tail := (if HasMember(deps, DevGroup) then [DevGroup] else [])
      + (if HasMember(deps, BuildGroup) then [BuildGroup] else []);
    var gs := normal + tail;
    forall i, j | 0 <= i < j < |gs| ensures GroupLt(gs[i], gs[j]) {
      if j < |normal| {
        assert PlatformLt(ps[i], ps[j]);
      } else if i >= |normal| {
        assert gs[i] == tail[i - |normal|];
        assert gs[j] == tail[j - |normal|];
      } else {
        assert gs[j] == tail[j - |normal|];
      }
    }
  }

  /** A group gets a section exactly when some dependency belongs to it. */
  lemma GroupsHaveMembers(deps: seq<Dependency>, g: Group)
    ensures g in SectionGroups(deps) <==> HasMember(deps, g)
  {
    var ps := Platforms(deps);
    var normal := NormalGroups(ps);
    var tail := (if HasMember(deps, DevGroup) then [DevGroup] else [])
      + (if HasMember(deps, BuildGroup) then [BuildGroup] else []);
    var gs := normal + tail;
    if g.NormalGroup? {
      assert g !in tail;
      if HasMember(deps, g) {
        var k :| 0 <= k < |deps| && InGroup(deps[k], g);
        assert deps[k].kind == Normal && deps[k].platform == g.platform;
        assert g.platform in ps;
        var i :| 0 <= i < |ps| && ps[i] == g.platform;
        assert normal[i] == g;
      }
      if g in normal {
        var i :| 0 <= i < |normal| && normal[i] == g;
        assert ps[i] in ps;
        var k :| 0 <= k < |deps| && deps[k].kind == Normal && deps[k].platform == ps[i];
        assert InGroup(deps[k], g);
      }
    } else {
      assert g !in normal;
    }
  }
}
