/** The string and array spellings of the renderer: `TomlDisplay for &str`,
    `TomlFlatArray` and `TomlPrettyArray` (src/main.rs:485-582). */
module TomlStr {
  import opened Strings

  /** Uppercase hexadecimal digit of `d` (Rust's `{:X}`). */
  function HexDigit(d: int): (c: char)
    requires 0 <= d < 16
    ensures ('0' <= c <= '9') || ('A' <= c <= 'F')
  {
    if d < 10 then (48 + d) as char else (55 + d) as char
  }

  /** Rust's `{:04X}`: four uppercase hex digits, zero padded. */
  function Hex4(n: int): (r: string)
    requires 0 <= n < 0x1_0000
    ensures |r| == 4
  {
    [HexDigit(n / 0x1000), HexDigit(n / 0x100 % 16), HexDigit(n / 0x10 % 16), HexDigit(n % 16)]
  }

  /** The characters written as a two-character backslash escape. */
  predicate HasShortEscape(c: char)
  {
    c == '\U{8}' || c == '\t' || c == '\n' || c == '\U{C}' || c == '\r' || c == '"' || c == '\\'
  }

  /** The letter following the backslash in a short escape. */
  function ShortEscapeLetter(c: char): char
    requires HasShortEscape(c)
  {
    if c == '\U{8}' then 'b'
    else if c == '\t' then 't'
    else if c == '\n' then 'n'
    else if c == '\U{C}' then 'f'
    else if c == '\r' then 'r'
    else c
  }

  /** Control characters written as `\uXXXX`: those below U+001F without a
      short escape. U+001F itself is not below U+001F and is copied. */
  predicate NeedsUnicodeEscape(c: char)
  {
    c < '\U{1F}' && !HasShortEscape(c)
  }

  /** How one character is spelled inside a double-quoted string. */
  function EscapeChar(c: char): (r: string)
    ensures HasShortEscape(c) ==> r == ['\\', ShortEscapeLetter(c)]
    ensures NeedsUnicodeEscape(c) ==> r == "\\u00" + [HexDigit(c as int / 16), HexDigit(c as int % 16)]
    ensures !HasShortEscape(c) && !NeedsUnicodeEscape(c) ==> r == [c]
  {
    if c == '\U{8}' then "\\b"
    else if c == '\t' then "\\t"
    else if c == '\n' then "\\n"
    else if c == '\U{C}' then "\\f"
    else if c == '\r' then "\\r"
    else if c == '"' then "\\\""
    else if c == '\\' then "\\\\"
    else if c < '\U{1F}' then "\\u" + Hex4(c as int)
    else [c]
  }

  /** The body of a double-quoted string: every character escaped in turn. */
  function Escape(s: string): string
  {
    if |s| == 0 then "" else EscapeChar(s[0]) + Escape(s[1..])
  }

  /** Characters a double-quoted string carries through unchanged. */
  predicate IsPlain(c: char)
  {
    !HasShortEscape(c) && !NeedsUnicodeEscape(c)
  }

  /** Text made of plain characters is its own escaped body. */
  lemma {:induction false} EscapePlain(s: string)
    requires forall i :: 0 <= i < |s| ==> IsPlain(s[i])
    ensures Escape(s) == s
  {
    if |s| > 0 {
      EscapePlain(s[1..]);
      assert [s[0]] + s[1..] == s;
    }
  }

  /** True when the literal (single-quoted) form is chosen. */
  predicate UsesLiteralForm(s: string)
  {
    '"' in s && '\'' !in s
  }

  /** `TomlDisplay for &str`: a single-quoted literal when `s` holds a double
      quote but no single quote, otherwise a double-quoted escaped string. */
  function Quote(s: string): (r: string)
    ensures UsesLiteralForm(s) ==> r == "'" + s + "'"
    ensures !UsesLiteralForm(s) ==> |r| >= 2 && r[0] == '"' && r[|r| - 1] == '"' && r[1..|r| - 1] == Escape(s)
  {
    if UsesLiteralForm(s) then "'" + s + "'" else "\"" + Escape(s) + "\""
  }
  /** Text of plain characters without a double quote is written between
      double quotes as it is. */
  predicate PlainText(s: string)
  {
    forall i :: 0 <= i < |s| ==> IsPlain(s[i]) && s[i] != '"'
  }

  lemma QuotePlain(s: string)
    requires PlainText(s)
    ensures Quote(s) == "\"" + s + "\""
  {
    EscapePlain(s);
  }


  /** `TomlFlatArray` over already-spelled elements. */
  function FlatArray(items: seq<string>): string
  {
    "[" + Join(items, ", ") + "]"
  }

  /** One element line of the multi-line layout. */
  function PrettyItem(item: string): string
  {
    "    " + item + ",\n"
  }

  function PrettyItems(items: seq<string>): string
  {
    if |items| == 0 then "" else PrettyItem(items[0]) + PrettyItems(items[1..])
  }

  /** `TomlPrettyArray` over already-spelled elements. */
  function PrettyArray(items: seq<string>): string
  {
    if |items| > 1 then "[\n" + PrettyItems(items) + "]"
    else "[" + Concat(items) + "]"
  }

  /** Elements spelled as TOML strings, for arrays of strings. */
  function QuoteAll(xs: seq<string>): (r: seq<string>)
    ensures |r| == |xs|
    ensures forall i :: 0 <= i < |xs| ==> r[i] == Quote(xs[i])
  {
    seq(|xs|, i requires 0 <= i < |xs| => Quote(xs[i]))
  }
}
