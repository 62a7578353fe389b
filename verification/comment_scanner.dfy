/** The comment-recovery scan of `parse_manifest` (src/main.rs:57-86): it
    walks the trimmed lines of the original manifest text and maps
    `"<table>.<key>"` to the block of `#` lines collected before the key's
    line. */
module CommentScanner {
  import opened Strings

  /** Rust's `char::is_whitespace` (the Unicode White_Space property). */
  predicate IsWhitespace(c: char)
  {
    || ('\t' <= c <= '\r') || c == ' ' || c == '\U{85}' || c == '\U{A0}' || c == '\U{1680}'
    || ('\U{2000}' <= c <= '\U{200A}') || c == '\U{2028}' || c == '\U{2029}'
    || c == '\U{202F}' || c == '\U{205F}' || c == '\U{3000}'
  }

  function TrimStart(s: string): (r: string)
    ensures |r| <= |s| && r == s[|s| - |r|..]
    ensures forall i :: 0 <= i < |s| - |r| ==> IsWhitespace(s[i])
    ensures |r| > 0 ==> !IsWhitespace(r[0])
  {
    if |s| > 0 && IsWhitespace(s[0]) then
      var r := TrimStart(s[1..]);
      assert s[1..][|s| - 1 - |r|..] == s[|s| - |r|..];
      assert forall i :: 1 <= i < |s| ==> s[1..][i - 1] == s[i];
      r
    else s
  }

  function TrimEnd(s: string): (r: string)
    ensures |r| <= |s| && r == s[..|r|]
    ensures forall i :: |r| <= i < |s| ==> IsWhitespace(s[i])
    ensures |r| > 0 ==> !IsWhitespace(r[|r| - 1])
  {
    if |s| > 0 && IsWhitespace(s[|s| - 1]) then
      var r := TrimEnd(s[..|s| - 1]);
      assert s[..|s| - 1][..|r|] == s[..|r|];
      assert forall i :: 0 <= i < |s| - 1 ==> s[..|s| - 1][i] == s[i];
      r
    else s
  }

  /** Rust's `str::trim`: the text without its leading and trailing
      whitespace. */
  function Trim(s: string): string
  {
    TrimEnd(TrimStart(s))
  }

  /** `Trim` keeps a contiguous middle part of the text. */
  lemma TrimKeepsMiddle(s: string)
    ensures var r := Trim(s);
      var a := |s| - |TrimStart(s)|;
      a + |r| <= |s| && r == s[a..a + |r|]
  {
    var t := TrimStart(s);
    var r := TrimEnd(t);
    MiddleSlice(s, t, r);
  }

  lemma MiddleSlice(s: string, t: string, r: string)
    requires |t| <= |s| && t == s[|s| - |t|..]
    requires |r| <= |t| && r == t[..|r|]
    ensures var a := |s| - |t|; a + |r| <= |s| && r == s[a..a + |r|]
  {
  }

  /** Everything `Trim` drops is whitespace. */
  lemma TrimDropsWhitespace(s: string)
    ensures var r := Trim(s);
      var a := |s| - |TrimStart(s)|;
      && (forall i :: 0 <= i < a ==> IsWhitespace(s[i]))
      && (forall i :: a + |r| <= i < |s| ==> IsWhitespace(s[i]))
  {
    var t := TrimStart(s);
    var r := TrimEnd(t);
    var a := |s| - |t|;
    assert t == s[a..];
    forall i | a + |r| <= i < |s| ensures IsWhitespace(s[i]) {
      assert s[i] == t[i - a];
    }
  }

  /** What `Trim` keeps neither starts nor ends with whitespace. */
  lemma TrimmedEnds(s: string)
    ensures var r := Trim(s);
      |r| > 0 ==> !IsWhitespace(r[0]) && !IsWhitespace(r[|r| - 1])
  {
    var t := TrimStart(s);
    var r := TrimEnd(t);
    if |r| > 0 {
      assert r[0] == t[0];
    }
  }

  /** The text cut at every `\n`; cutting n times gives n + 1 pieces. */
  function Split(s: string): (r: seq<string>)
    ensures |r| >= 1
    ensures forall i :: 0 <= i < |r| ==> '\n' !in r[i]
    ensures Join(r, "\n") == s
  {
    if |s| == 0 then [""]
    else
      var rest := Split(s[1..]);
      if s[0] == '\n' then
        assert s == "\n" + s[1..];
        [""] + rest
      else
        var r := [[s[0]] + rest[0]] + rest[1..];
        assert r[1..] == rest[1..];
        assert s == [s[0]] + s[1..];
        r
  }

  /** Rust's `str::lines`: the pieces between `\n`s, without the empty piece
      after a final `\n`. A `\r` before the `\n` is kept here; it is
      whitespace, so trimming removes it as `lines` would. */
  function Lines(s: string): (r: seq<string>)
    ensures forall i :: 0 <= i < |r| ==> '\n' !in r[i]
  {
    var pieces := Split(s);
    if pieces[|pieces| - 1] == "" then pieces[..|pieces| - 1] else pieces
  }

  /** The lines, joined by `\n`, give back the text; a final `\n` ends
      the last line and starts no empty one. */
  lemma LinesRoundTrip(s: string)
    ensures s != [] && s[|s| - 1] == '\n' ==> Join(Lines(s), "\n") + "\n" == s
    ensures s == [] || s[|s| - 1] != '\n' ==> Join(Lines(s), "\n") == s
  {
    var pieces := Split(s);
    var n := |pieces|;
    var p := pieces[n - 1];
    if n == 1 {
      assert s == p;
    } else {
      JoinSnoc(pieces, "\n");
      assert s == (Join(pieces[..n - 1], "\n") + "\n") + p;
    }
    if p != "" {
      assert s[|s| - 1] == p[|p| - 1];
    }
  }

  /** Characters of a bare key: ASCII alphanumerics, `-` and `_`. */
  predicate IsKeyChar(c: char)
  {
    ('a' <= c <= 'z') || ('A' <= c <= 'Z') || ('0' <= c <= '9') || c == '-' || c == '_'
  }

  /** The longest prefix of key characters. */
  function KeyPrefix(line: string): (k: string)
    ensures IsPrefix(k, line)
    ensures forall i :: 0 <= i < |k| ==> IsKeyChar(k[i])
    ensures |k| == |line| || !IsKeyChar(line[|k|])
  {
    if |line| > 0 && IsKeyChar(line[0]) then [line[0]] + KeyPrefix(line[1..]) else ""
  }

  /** How the scan reads one (trimmed) line. */
  datatype LineClass = Header(name: string) | Comment(text: string) | Other(key: string)

  predicate IsHeaderLine(line: string)
  {
    |line| > 0 && line[0] == '[' && line[|line| - 1] == ']'
  }

  function Classify(raw: string): LineClass
  {
    var line := Trim(raw);
    if IsHeaderLine(line) then Header(line[1..|line| - 1])
    else if |line| > 0 && line[0] == '#' then Comment(line)
    else Other(KeyPrefix(line))
  }

  /** A header line is `[` + its name + `]`; a comment line starts with `#`
      and is kept whole; any other line is read for its key. */
  lemma ClassifySpec(raw: string)
    ensures Classify(raw).Header? <==> IsHeaderLine(Trim(raw))
    ensures Classify(raw).Header? ==> "[" + Classify(raw).name + "]" == Trim(raw)
    ensures Classify(raw).Comment? ==> (var t := Trim(raw); Classify(raw).text == t && |t| > 0 && t[0] == '#')
    ensures Classify(raw).Other? ==> Classify(raw).key == KeyPrefix(Trim(raw))
  {
    var line := Trim(raw);
    if IsHeaderLine(line) {
      HeaderSplit(line);
    }
  }

  lemma HeaderSplit(line: string)
    requires IsHeaderLine(line)
    ensures "[" + line[1..|line| - 1] + "]" == line
  {
    assert line == [line[0]] + line[1..|line| - 1] + [line[|line| - 1]];
  }

  /** Each line classified, in order. */
  function ClassifyAll(lines: seq<string>): (cs: seq<LineClass>)
    ensures |cs| == |lines|
  {
    if |lines| == 0 then [] else [Classify(lines[0])] + ClassifyAll(lines[1..])
  }

  lemma {:induction false} ClassifyAllAt(lines: seq<string>, i: int)
    requires 0 <= i < |lines|
    ensures ClassifyAll(lines)[i] == Classify(lines[i])
  {
    var cs := ClassifyAll(lines);
    assert cs == [Classify(lines[0])] + ClassifyAll(lines[1..]);
    if i > 0 {
      ClassifyAllAt(lines[1..], i - 1);
      assert cs[i] == ClassifyAll(lines[1..])[i - 1];
      assert lines[1..][i - 1] == lines[i];
    }
  }

  /** State of the scan: current table, pending comment block, the map. */
  datatype ScanState = ScanState(table: string, pending: string, comments: map<string, string>)

  const Start := ScanState("", "", map[])

  /** One iteration of the scan loop, on a classified line. */
  function Step(st: ScanState, c: LineClass): ScanState
  {
    match c
    case Header(name) => st.(table := name)
    case Comment(text) => st.(pending := st.pending + text + "\n")
    case Other(key) =>
      if key != "" then ScanState(st.table, "", st.comments[st.table + "." + key := st.pending])
      else st.(pending := "")
  }

  /** The scan of a sequence of classified lines, one `Step` per line. */
  function Fold(cs: seq<LineClass>): ScanState
  {
    if |cs| == 0 then Start else Step(Fold(cs[..|cs| - 1]), cs[|cs| - 1])
  }

  /** The comment map `parse_manifest` builds from the manifest text. */
  method ScanComments(text: string) returns (comments: map<string, string>)
    ensures comments == Fold(ClassifyAll(Lines(text))).comments
    ensures forall q :: q in comments <==> exists i :: KeyLineAt(ClassifyAll(Lines(text)), i, q)
  {
    var lines := Lines(text);
    var cs := ClassifyAll(lines);
    comments := ScanLines(cs);
    RecordedAll(cs);
  }

  /** The scan loop over classified lines. */
  method ScanLines(cs: seq<LineClass>) returns (comments: map<string, string>)
    ensures comments == Fold(cs).comments
  {
    var table := "";
    var pending := "";
    comments := map[];
    var i := 0;
    while i < |cs|
      invariant 0 <= i <= |cs|
      invariant Fold(cs[..i]) == ScanState(table, pending, comments)
    {
      ghost var before := ScanState(table, pending, comments);
      match cs[i] {
        case Header(name) =>
          table := name;
        case Comment(line) =>
          pending := pending + line + "\n";
        case Other(key) =>
          if key != "" {
            comments := comments[table + "." + key := pending];
          }
          pending := "";
      }
      assert ScanState(table, pending, comments) == Step(before, cs[i]);
      FoldPrefix(cs, i);
      i := i + 1;
    }
    assert cs[..|cs|] == cs;
  }

  lemma FoldPrefix(cs: seq<LineClass>, i: int)
    requires 0 <= i < |cs|
    ensures Fold(cs[..i + 1]) == Step(Fold(cs[..i]), cs[i])
  {
    FoldLast(cs[..i + 1]);
    assert cs[..i + 1][..i] == cs[..i];
  }

  lemma RecordedAll(cs: seq<LineClass>)
    ensures forall q :: q in Fold(cs).comments <==> exists i :: KeyLineAt(cs, i, q)
  {
    forall q ensures q in Fold(cs).comments <==> exists i :: KeyLineAt(cs, i, q) {
      RecordedIff(cs, q);
    }
  }

  /** Line `i` is a key line whose qualified key (the table current at
      that line, a dot, the key) is `q`. */
  ghost predicate KeyLineAt(cs: seq<LineClass>, i: int, q: string)
  {
    && 0 <= i < |cs|
    && cs[i].Other?
    && cs[i].key != ""
    && Fold(cs[..i]).table + "." + cs[i].key == q
  }

  /** What a line adds to a comment block: a `#` line and a newline. */
  function BlockPart(c: LineClass): string
  {
    match c
    case Comment(text) => text + "\n"
    case _ => ""
  }

  /** The comment block made of the `#` lines among `cs`, in order. */
  function CommentBlock(cs: seq<LineClass>): string
  {
    if |cs| == 0 then "" else BlockPart(cs[0]) + CommentBlock(cs[1..])
  }

  lemma {:induction false} CommentBlockAppend(cs: seq<LineClass>, c: LineClass)
    ensures CommentBlock(cs + [c]) == CommentBlock(cs) + BlockPart(c)
  {
    if |cs| == 0 {
      assert CommentBlock([c]) == BlockPart(c) + CommentBlock([]);
    } else {
      assert (cs + [c])[1..] == cs[1..] + [c];
      CommentBlockAppend(cs[1..], c);
    }
  }

  /** The scanner-state rules: a `#` line appends itself and a newline to
      the pending block; a header sets the table to its name verbatim and
      keeps the pending block; any other line empties the pending block,
      and records it under the qualified key when the line has a key. */
  lemma StepSpec(st: ScanState, raw: string)
    ensures var c := Classify(raw); var st' := Step(st, c);
      && (c.Header? ==> st' == st.(table := c.name) && "[" + c.name + "]" == Trim(raw))
      && (c.Comment? ==> st' == st.(pending := st.pending + Trim(raw) + "\n") && Trim(raw)[0] == '#')
      && (c.Other? ==> st'.table == st.table && st'.pending == "")
      && (c.Other? && KeyPrefix(Trim(raw)) == "" ==> st'.comments == st.comments)
      && (c.Other? && KeyPrefix(Trim(raw)) != "" ==>
            st'.comments == st.comments[st.table + "." + KeyPrefix(Trim(raw)) := st.pending])
  {
    ClassifySpec(raw);
  }

  /** A blank (or all-whitespace) line falls into the key branch, finds no
      key, and clears the pending comment without recording anything. */
  lemma BlankLineClears(st: ScanState, raw: string)
    requires Trim(raw) == ""
    ensures Step(st, Classify(raw)) == st.(pending := "")
  {
  }

  lemma FoldLast(cs: seq<LineClass>)
    requires |cs| > 0
    ensures Fold(cs) == Step(Fold(cs[..|cs| - 1]), cs[|cs| - 1])
  {
  }

  /** The current table is the name inside the last header line, or empty
      before the first header. */
  lemma {:induction false} TableIsLastHeader(cs: seq<LineClass>, h: int)
    requires -1 <= h < |cs|
    requires h >= 0 ==> cs[h].Header?
    requires forall j :: h < j < |cs| ==> !cs[j].Header?
    ensures Fold(cs).table == if h >= 0 then cs[h].name else ""
  {
    if |cs| > 0 && h < |cs| - 1 {
      var init := cs[..|cs| - 1];
      TableIsLastHeader(init, h);
    }
  }

  /** The pending comment after a line that clears it (or at the start) is
      exactly the block of `#` lines since, headers adding nothing. */
  lemma {:induction false} PendingIsBlock(cs: seq<LineClass>, k: int)
    requires 0 <= k <= |cs|
    requires k == 0 || cs[k - 1].Other?
    requires forall j :: k <= j < |cs| ==> !cs[j].Other?
    ensures Fold(cs).pending == CommentBlock(cs[k..])
  {
    if |cs| == k {
      if k > 0 {
        FoldLast(cs);
      }
    } else {
      var n := |cs|;
      var init := cs[..n - 1];
      var last := cs[n - 1];
      assert Fold(init).pending == CommentBlock(init[k..]) by {
        PendingIsBlock(init, k);
      }
      assert Fold(cs).pending == Fold(init).pending + BlockPart(last) by {
        FoldLast(cs);
        StepPending(Fold(init), last);
      }
      assert CommentBlock(cs[k..]) == CommentBlock(init[k..]) + BlockPart(last) by {
        SuffixSnoc(cs, k);
        CommentBlockAppend(init[k..], last);
      }
    }
  }

  lemma SuffixSnoc<T>(s: seq<T>, k: nat)
    requires k < |s|
    ensures s[k..] == s[..|s| - 1][k..] + [s[|s| - 1]]
  {
    var a := s[..|s| - 1][k..];
    assert |s[k..]| == |a| + 1;
    forall i | 0 <= i < |a| ensures s[k..][i] == (a + [s[|s| - 1]])[i] {
      assert a[i] == s[k + i];
    }
    assert s[k..][|a|] == s[|s| - 1];
  }

  /** A line that is not a key line adds its block part to the pending
      comment. */
  lemma StepPending(st: ScanState, c: LineClass)
    requires !c.Other?
    ensures Step(st, c).pending == st.pending + BlockPart(c)
  {
  }

  lemma KeyLineInPrefix(cs: seq<LineClass>, i: int, q: string)
    requires 0 <= i < |cs| - 1
    ensures KeyLineAt(cs, i, q) <==> KeyLineAt(cs[..|cs| - 1], i, q)
  {
    assert cs[..|cs| - 1][..i] == cs[..i];
  }

  /** A qualified key is in the map exactly when some line is a key line
      for it. */
  lemma {:induction false} RecordedIff(cs: seq<LineClass>, q: string)
    ensures q in Fold(cs).comments <==> exists i :: KeyLineAt(cs, i, q)
  {
    if |cs| > 0 {
      var n := |cs|;
      var init := cs[..n - 1];
      RecordedIff(init, q);
      FoldLast(cs);
      forall i | 0 <= i < n - 1 ensures KeyLineAt(cs, i, q) <==> KeyLineAt(init, i, q) {
        KeyLineInPrefix(cs, i, q);
      }
      if KeyLineAt(cs, n - 1, q) {
        assert q in Fold(cs).comments;
      }
      if q in Fold(cs).comments && !KeyLineAt(cs, n - 1, q) {
        assert q in Fold(init).comments;
      }
    }
  }

  /** Last line wins: the value under a qualified key is the pending
      comment as it stood at the last key line for that key. */
  lemma {:induction false} LastKeyLineWins(cs: seq<LineClass>, i: int, q: string)
    requires KeyLineAt(cs, i, q)
    requires forall j :: i < j < |cs| ==> !KeyLineAt(cs, j, q)
    ensures q in Fold(cs).comments
    ensures Fold(cs).comments[q] == Fold(cs[..i]).pending
  {
    var n := |cs|;
    var init := cs[..n - 1];
    FoldLast(cs);
    if i == n - 1 {
      assert init == cs[..i];
    } else {
      KeyLineInPrefix(cs, i, q);
      forall j | i < j < |init| ensures !KeyLineAt(init, j, q) {
        KeyLineInPrefix(cs, j, q);
      }
      LastKeyLineWins(init, i, q);
      assert init[..i] == cs[..i];
      assert !KeyLineAt(cs, n - 1, q);
    }
  }

  /** Comment recovery: the map holds, under the qualified key of its last
      key line, exactly the `#` lines between that line and the previous
      line that cleared the block (headers in between add nothing). */
  lemma CommentAttached(cs: seq<LineClass>, k: int, i: int, q: string)
    requires KeyLineAt(cs, i, q)
    requires forall j :: i < j < |cs| ==> !KeyLineAt(cs, j, q)
    requires 0 <= k <= i
    requires k == 0 || cs[k - 1].Other?
    requires forall j :: k <= j < i ==> !cs[j].Other?
    ensures q in Fold(cs).comments
    ensures Fold(cs).comments[q] == CommentBlock(cs[k..i])
  {
    LastKeyLineWins(cs, i, q);
    var pre := cs[..i];
    PendingIsBlock(pre, k);
    assert pre[k..] == cs[k..i];
  }
}
