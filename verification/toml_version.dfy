/** `TomlVersion` (src/main.rs:527-546): a caret requirement `^M[.m[.p]]`
    found anywhere in the requirement text is written as the exact version
    `"M.m.p"`, absent parts being `0`; anything else is written as a quoted
    string. The regular expression is unanchored, so the leftmost `^`
    followed by a digit is the one matched, and each digit group is greedy. */
module TomlVersion {
  import opened Wrappers
  import opened Strings
  import opened TomlStr

  /** A match of the regular expression can start at `j`. */
  predicate CaretAt(s: string, j: int)
  {
    0 <= j && j + 1 < |s| && s[j] == '^' && IsDigit(s[j + 1])
  }

  /** A `.` followed by a digit at `k`: an optional group can match there. */
  predicate DotDigitAt(s: string, k: int)
  {
    0 <= k && k + 1 < |s| && s[k] == '.' && IsDigit(s[k + 1])
  }

  /** `d` is the whole run of digits starting at `k` (greedy `[0-9]+`). */
  ghost predicate MaximalDigitsAt(s: string, k: int, d: string)
  {
    && 0 <= k && |d| >= 1 && k + |d| <= |s| && s[k..k + |d|] == d
    && (forall i :: 0 <= i < |d| ==> IsDigit(d[i]))
    && (k + |d| == |s| || !IsDigit(s[k + |d|]))
  }

  /** The optional patch group at `e2`: either `.digits`, or absent and `"0"`. */
  ghost predicate PatchGroup(s: string, e2: int, patch: string)
  {
    if DotDigitAt(s, e2) then MaximalDigitsAt(s, e2 + 1, patch) else patch == "0"
  }

  /** The optional minor group (holding the patch group) at `e1`. */
  ghost predicate MinorGroup(s: string, e1: int, minor: string, patch: string)
  {
    if DotDigitAt(s, e1) then
      MaximalDigitsAt(s, e1 + 1, minor) && PatchGroup(s, e1 + 1 + |minor|, patch)
    else minor == "0" && patch == "0"
  }

  /** The regular expression's leftmost match starts at `j` and captures
      `major`, `minor` and `patch`; a capture group that did not take part
      is given as `"0"`, as the renderer substitutes. */
  ghost predicate LeftmostMatch(s: string, j: int, major: string, minor: string, patch: string)
  {
    && CaretAt(s, j)
    && (forall i :: 0 <= i < j ==> !CaretAt(s, i))
    && MaximalDigitsAt(s, j + 1, major)
    && MinorGroup(s, j + 1 + |major|, minor, patch)
  }

  /** End of the run of digits starting at `k`. */
  function DigitRunEnd(s: string, k: nat): (e: nat)
    requires k <= |s|
    ensures k <= e <= |s|
    ensures forall i :: k <= i < e ==> IsDigit(s[i])
    ensures e == |s| || !IsDigit(s[e])
    decreases |s| - k
  {
    if k < |s| && IsDigit(s[k]) then DigitRunEnd(s, k + 1) else k
  }

  /** First position at or after `from` where a match can start. */
  function FindCaret(s: string, from: nat): (r: Option<nat>)
    ensures r.Some? ==> (from <= r.value && CaretAt(s, r.value)
                         && forall i :: from <= i < r.value ==> !CaretAt(s, i))
    ensures r.None? ==> forall i :: from <= i ==> !CaretAt(s, i)
    decreases |s| - from
  {
    if from + 1 >= |s| then None
    else if CaretAt(s, from) then Some(from)
    else FindCaret(s, from + 1)
  }

  /** The exact-version spelling of a matched requirement. */
  function ExactVersion(major: string, minor: string, patch: string): string
  {
    "\"" + major + "." + minor + "." + patch + "\""
  }

  /** The capture of an optional `.digits` group at `k`, `"0"` when absent. */
  function GroupCapture(s: string, k: nat): string
  {
    if DotDigitAt(s, k) then s[k + 1..DigitRunEnd(s, k + 1)] else "0"
  }

  /** The patch capture, given where the minor group would start. */
  function PatchCapture(s: string, e1: nat): string
  {
    if DotDigitAt(s, e1) then GroupCapture(s, DigitRunEnd(s, e1 + 1)) else "0"
  }

  /** The spelling once the match is known to start at `j`. */
  function SpellAt(req: string, j: nat): string
    requires CaretAt(req, j)
  {
    var e1 := DigitRunEnd(req, j + 1);
    ExactVersion(req[j + 1..e1], GroupCapture(req, e1), PatchCapture(req, e1))
  }

  /** The spelling of a version requirement (given as its display text). */
  function Spell(req: string): (r: string)
    ensures (forall i :: 0 <= i < |req| ==> !CaretAt(req, i)) ==> r == Quote(req)
  {
    match FindCaret(req, 0)
    case None => Quote(req)
    case Some(j) => SpellAt(req, j)
  }

  lemma {:induction false} MaximalDigitsUnique(s: string, k: int, d: string)
    requires MaximalDigitsAt(s, k, d)
    ensures k + |d| == DigitRunEnd(s, k)
    ensures d == s[k..DigitRunEnd(s, k)]
  {
    var e := DigitRunEnd(s, k);
    forall i | k <= i < k + |d| ensures IsDigit(s[i]) {
      assert s[i] == d[i - k];
    }
  }

  lemma FindCaretLeftmost(s: string, j: int)
    requires CaretAt(s, j)
    requires forall i :: 0 <= i < j ==> !CaretAt(s, i)
    ensures FindCaret(s, 0) == Some(j)
  {
  }

  lemma PatchGroupUnique(s: string, e2: nat, patch: string)
    requires PatchGroup(s, e2, patch)
    ensures patch == GroupCapture(s, e2)
  {
    if DotDigitAt(s, e2) {
      MaximalDigitsUnique(s, e2 + 1, patch);
    }
  }

  lemma MinorGroupUnique(s: string, e1: nat, minor: string, patch: string)
    requires MinorGroup(s, e1, minor, patch)
    ensures minor == GroupCapture(s, e1) && patch == PatchCapture(s, e1)
  {
    if DotDigitAt(s, e1) {
      MaximalDigitsUnique(s, e1 + 1, minor);
      PatchGroupUnique(s, e1 + 1 + |minor|, patch);
    }
  }

  /** A requirement whose leftmost match captured `major`, `minor` and
      `patch` is spelled `"major.minor.patch"`. */
  lemma SpellCaret(req: string, j: int, major: string, minor: string, patch: string)
    requires LeftmostMatch(req, j, major, minor, patch)
    ensures Spell(req) == ExactVersion(major, minor, patch)
  {
    FindCaretLeftmost(req, j);
    assert Spell(req) == SpellAt(req, j);
    MaximalDigitsUnique(req, j + 1, major);
    var e1 := DigitRunEnd(req, j + 1);
    assert req[j + 1..e1] == major;
    MinorGroupUnique(req, e1, minor, patch);
  }

  lemma DigitRunMaximal(s: string, k: nat)
    requires k < |s| && IsDigit(s[k])
    ensures MaximalDigitsAt(s, k, s[k..DigitRunEnd(s, k)])
  {
  }

  lemma PatchGroupCapture(s: string, e2: nat)
    ensures PatchGroup(s, e2, GroupCapture(s, e2))
  {
    if DotDigitAt(s, e2) {
      DigitRunMaximal(s, e2 + 1);
    }
  }

  lemma MinorGroupCapture(s: string, e1: nat)
    ensures MinorGroup(s, e1, GroupCapture(s, e1), PatchCapture(s, e1))
  {
    if DotDigitAt(s, e1) {
      DigitRunMaximal(s, e1 + 1);
      PatchGroupCapture(s, DigitRunEnd(s, e1 + 1));
    }
  }

  lemma CapturesMatch(req: string, j: nat)
    requires CaretAt(req, j)
    requires forall i :: 0 <= i < j ==> !CaretAt(req, i)
    ensures var e1 := DigitRunEnd(req, j + 1);
            LeftmostMatch(req, j, req[j + 1..e1], GroupCapture(req, e1), PatchCapture(req, e1))
  {
    DigitRunMaximal(req, j + 1);
    MinorGroupCapture(req, DigitRunEnd(req, j + 1));
  }

  /** Every requirement that contains a caret followed by a digit has a
      leftmost match; the spelling is then an exact version. */
  lemma SpellHasMatch(req: string, i: int)
    requires CaretAt(req, i)
    ensures exists j, major, minor, patch ::
              (LeftmostMatch(req, j, major, minor, patch) && Spell(req) == ExactVersion(major, minor, patch))
  {
    var j := FindCaret(req, 0).value;
    var e1 := DigitRunEnd(req, j + 1);
    CapturesMatch(req, j);
    SpellCaret(req, j, req[j + 1..e1], GroupCapture(req, e1), PatchCapture(req, e1));
  }

  lemma SpellMinorOnly()
    ensures Spell("^1.2") == "\"1.2.0\""
  {
    SpellCaret("^1.2", 0, "1", "2", "0");
  }

  /** `^a.b` with one-digit parts pins the patch level to 0. */
  lemma SpellOneDigitMinor(req: string, a: char, b: char)
    requires IsDigit(a) && IsDigit(b) && req == ['^', a, '.', b]
    ensures Spell(req) == ['"', a, '.', b, '.', '0', '"']
  {
    SpellCaret(req, 0, [a], [b], "0");
  }

  lemma SpellMajorOnly()
    ensures Spell("^2") == "\"2.0.0\""
  {
    SpellCaret("^2", 0, "2", "0", "0");
  }

  /** A requirement with no caret and no character needing an escape is
      written as itself between double quotes. */
  lemma SpellPlain(req: string)
    requires forall i :: 0 <= i < |req| ==> req[i] != '^' && req[i] != '"' && IsPlain(req[i])
    ensures Spell(req) == "\"" + req + "\""
  {
    assert !UsesLiteralForm(req);
    EscapePlain(req);
  }

  /** A range requirement has no caret and is written quoted, unchanged. */
  lemma SpellRange(req: string)
    requires req == ">=1.0, <2.0"
    ensures Spell(req) == "\">=1.0, <2.0\""
  {
    RangeIsPlain(req);
    SpellPlain(req);
    RangeQuoted(req);
  }

  lemma RangeIsPlain(req: string)
    requires req == ">=1.0, <2.0"
    ensures forall i :: 0 <= i < |req| ==> req[i] != '^' && req[i] != '"' && IsPlain(req[i])
  {
  }

  lemma RangeQuoted(req: string)
    requires req == ">=1.0, <2.0"
    ensures "\"" + req + "\"" == "\">=1.0, <2.0\""
  {
  }
}
