/** A reader for the strings and arrays the renderer writes: the inverse of
    `Quote`, `FlatArray` and `PrettyArray` over quoted elements. The
    renderer has no reader of its own; this one exists so that the encoder
    can be stated as one half of a round trip. */
module TomlDecode {
  import opened Wrappers
  import opened Strings
  import opened TomlStr

  /** Prefixes `c` to the decoded value of a successful parse. */
  function Prepend(c: char, p: Option<(string, string)>): Option<(string, string)>
  {
    match p
    case None => None
    case Some((v, rest)) => Some(([c] + v, rest))
  }

  /** Body of a single-quoted literal: everything up to the next `'`.
      Returns the text and the input after the closing quote. */
  function LiteralBody(s: string): (p: Option<(string, string)>)
    ensures p.Some? ==> |p.value.1| < |s|
  {
    if |s| == 0 then None
    else if s[0] == '\'' then Some(([], s[1..]))
    else Prepend(s[0], LiteralBody(s[1..]))
  }

  /** Value of a hex digit, either case. */
  function HexValue(c: char): Option<int>
  {
    if '0' <= c <= '9' then Some(c as int - 48)
    else if 'A' <= c <= 'F' then Some(c as int - 55)
    else if 'a' <= c <= 'f' then Some(c as int - 87)
    else None
  }

  /** Value of four hex digits. */
  function Hex4Value(h: string): Option<int>
    requires |h| == 4
  {
    match (HexValue(h[0]), HexValue(h[1]), HexValue(h[2]), HexValue(h[3]))
    case (Some(a), Some(b), Some(c), Some(d)) => Some(a * 0x1000 + b * 0x100 + c * 0x10 + d)
    case _ => None
  }

  /** The character a two-character escape `\x` stands for. */
  function ShortUnescape(x: char): Option<char>
  {
    if x == 'b' then Some('\U{8}')
    else if x == 't' then Some('\t')
    else if x == 'n' then Some('\n')
    else if x == 'f' then Some('\U{C}')
    else if x == 'r' then Some('\r')
    else if x == '"' then Some('"')
    else if x == '\\' then Some('\\')
    else None
  }

  /** Body of a double-quoted string up to its closing `"`, with escapes
      decoded. Returns the text and the input after the closing quote. */
  function BasicBody(s: string): (p: Option<(string, string)>)
    ensures p.Some? ==> |p.value.1| < |s|
    decreases |s|
  {
    if |s| == 0 then None
    else if s[0] == '"' then Some(([], s[1..]))
    else if s[0] == '\\' then
      if |s| < 2 then None
      else if ShortUnescape(s[1]).Some? then Prepend(ShortUnescape(s[1]).value, BasicBody(s[2..]))
      else if s[1] == 'u' && |s| >= 6 then
        match Hex4Value(s[2..6])
        case Some(v) =>
          if 0 <= v < 0xD800 || 0xE000 <= v < 0x11_0000 then Prepend(v as char, BasicBody(s[6..]))
          else None
        case None => None
      else None
    else Prepend(s[0], BasicBody(s[1..]))
  }

  /** Reads one quoted string at the front of `s`; returns its value and the
      rest of the input. */
  function ParseString(s: string): (p: Option<(string, string)>)
    ensures p.Some? ==> |p.value.1| < |s|
  {
    if |s| == 0 then None
    else if s[0] == '\'' then LiteralBody(s[1..])
    else if s[0] == '"' then BasicBody(s[1..])
    else None
  }

  /** Reads a whole text that must be exactly one quoted string. */
  function Unquote(s: string): Option<string>
  {
    match ParseString(s)
    case Some((v, rest)) => if rest == "" then Some(v) else None
    case None => None
  }

  lemma HexDigitValue(d: int)
    requires 0 <= d < 16
    ensures HexValue(HexDigit(d)) == Some(d)
  {
  }

  lemma {:induction false} LiteralBodyRoundTrip(x: string, rest: string)
    requires '\'' !in x
    ensures LiteralBody(x + "'" + rest) == Some((x, rest))
  {
    var s := x + "'" + rest;
    if |x| == 0 {
      assert s[1..] == rest;
    } else {
      assert s[1..] == x[1..] + "'" + rest;
      assert x[0] in x;
      LiteralBodyRoundTrip(x[1..], rest);
      assert [x[0]] + x[1..] == x;
    }
  }

  /** Decoding one escaped character, followed by anything, gives it back. */
  lemma EscapeCharRoundTrip(c: char, t: string)
    ensures BasicBody(EscapeChar(c) + t) == Prepend(c, BasicBody(t))
  {
    var s := EscapeChar(c) + t;
    if HasShortEscape(c) {
      assert s[2..] == t;
    } else if NeedsUnicodeEscape(c) {
      var n := c as int;
      HexDigitValue(n / 16);
      HexDigitValue(n % 16);
      assert s[2..6] == ['0', '0', HexDigit(n / 16), HexDigit(n % 16)];
      assert s[6..] == t;
      assert Hex4Value(s[2..6]) == Some(n);
      assert n as char == c;
    } else {
      assert s[1..] == t;
    }
  }

  lemma {:induction false} BasicBodyRoundTrip(x: string, rest: string)
    ensures BasicBody(Escape(x) + "\"" + rest) == Some((x, rest))
  {
    if |x| == 0 {
      assert Escape(x) + "\"" + rest == "\"" + rest;
      assert ("\"" + rest)[1..] == rest;
    } else {
      var t := Escape(x[1..]) + "\"" + rest;
      assert Escape(x) + "\"" + rest == EscapeChar(x[0]) + t;
      EscapeCharRoundTrip(x[0], t);
      BasicBodyRoundTrip(x[1..], rest);
      assert [x[0]] + x[1..] == x;
    }
  }

  /** Reading a quoted string back yields the original text and leaves the
      input after it untouched. */
  lemma QuoteRoundTrip(x: string, rest: string)
    ensures ParseString(Quote(x) + rest) == Some((x, rest))
  {
    if UsesLiteralForm(x) {
      var body := x + "'" + rest;
      assert Quote(x) + rest == "'" + body;
      assert ("'" + body)[1..] == body;
      LiteralBodyRoundTrip(x, rest);
    } else {
      var body := Escape(x) + "\"" + rest;
      assert Quote(x) + rest == "\"" + body;
      assert ("\"" + body)[1..] == body;
      BasicBodyRoundTrip(x, rest);
    }
  }

  /** `Unquote` inverts `Quote`. */
  lemma UnquoteQuote(x: string)
    ensures Unquote(Quote(x)) == Some(x)
  {
    QuoteRoundTrip(x, "");
    assert Quote(x) + "" == Quote(x);
  }

  /** Distinct strings are written differently. */
  lemma QuoteInjective(a: string, b: string)
    requires Quote(a) == Quote(b)
    ensures a == b
  {
    UnquoteQuote(a);
    UnquoteQuote(b);
  }

  /** Elements of a flat array after its `[`: strings separated by `", "`
      and closed by `]`, which must end the input. */
  function FlatItems(s: string): Option<seq<string>>
    decreases |s|
  {
    match ParseString(s)
    case None => None
    case Some((v, rest)) =>
      if rest == "]" then Some([v])
      else if IsPrefix(", ", rest) then
        match FlatItems(rest[2..])
        case Some(vs) => Some([v] + vs)
        case None => None
      else None
  }

  /** Reads a flat array of quoted strings. */
  function ParseFlatArray(s: string): Option<seq<string>>
  {
    if s == "[]" then Some([])
    else if |s| > 0 && s[0] == '[' then FlatItems(s[1..])
    else None
  }

  /** Elements of a multi-line array after its `[\n`: one indented string
      followed by `,\n` per element, then `]`, which must end the input. */
  function PrettyItemsOf(s: string): Option<seq<string>>
    decreases |s|
  {
    if s == "]" then Some([])
    else if IsPrefix("    ", s) then
      match ParseString(s[4..])
      case None => None
      case Some((v, rest)) =>
        if IsPrefix(",\n", rest) then
          match PrettyItemsOf(rest[2..])
          case Some(vs) => Some([v] + vs)
          case None => None
        else None
    else None
  }

  /** Reads an array in either layout `TomlPrettyArray` produces. */
  function ParsePrettyArray(s: string): Option<seq<string>>
  {
    if IsPrefix("[\n", s) then PrettyItemsOf(s[2..]) else ParseFlatArray(s)
  }

  lemma {:induction false} FlatItemsRoundTrip(xs: seq<string>)
    requires |xs| > 0
    ensures FlatItems(Join(QuoteAll(xs), ", ") + "]") == Some(xs)
  {
    var qs := QuoteAll(xs);
    if |xs| == 1 {
      assert Join(qs, ", ") == Quote(xs[0]);
      QuoteRoundTrip(xs[0], "]");
      assert [xs[0]] == xs;
    } else {
      var tail := Join(qs[1..], ", ") + "]";
      assert qs[1..] == QuoteAll(xs[1..]);
      JoinStep(qs, ", ", "]");
      FlatItemsStep(xs[0], tail);
      FlatItemsRoundTrip(xs[1..]);
      assert [xs[0]] + xs[1..] == xs;
    }
  }

  /** One element of a flat array followed by the separator and more. */
  lemma FlatItemsStep(x: string, tail: string)
    ensures FlatItems(Quote(x) + (", " + tail))
         == match FlatItems(tail) case Some(vs) => Some([x] + vs) case None => None
  {
    QuoteRoundTrip(x, ", " + tail);
    DropPrefix(", ", tail);
  }

  lemma JoinStep(parts: seq<string>, sep: string, t: string)
    requires |parts| >= 2
    ensures Join(parts, sep) + t == parts[0] + (sep + (Join(parts[1..], sep) + t))
  {
  }

  /** Reading a flat array of strings gives back the elements, in order. */
  lemma FlatArrayRoundTrip(xs: seq<string>)
    ensures ParseFlatArray(FlatArray(QuoteAll(xs))) == Some(xs)
  {
    var s := FlatArray(QuoteAll(xs));
    if |xs| == 0 {
      assert s == "[]";
    } else {
      var q0 := Quote(xs[0]);
      assert |q0| >= 2;
      assert s[1..] == Join(QuoteAll(xs), ", ") + "]";
      FlatItemsRoundTrip(xs);
    }
  }

  lemma {:induction false} PrettyItemsRoundTrip(xs: seq<string>)
    ensures PrettyItemsOf(PrettyItems(QuoteAll(xs)) + "]") == Some(xs)
  {
    var qs := QuoteAll(xs);
    if |xs| == 0 {
      assert PrettyItems(qs) + "]" == "]";
    } else {
      var tail := PrettyItems(qs[1..]) + "]";
      assert qs[1..] == QuoteAll(xs[1..]);
      var after := Quote(xs[0]) + (",\n" + tail);
      PrettyItemsStep(qs, tail, after);
      QuoteRoundTrip(xs[0], ",\n" + tail);
      assert (",\n" + tail)[2..] == tail;
      PrettyItemsRoundTrip(xs[1..]);
      assert [xs[0]] + xs[1..] == xs;
    }
  }

  lemma PrettyItemsStep(qs: seq<string>, tail: string, after: string)
    requires |qs| > 0
    requires tail == PrettyItems(qs[1..]) + "]"
    requires after == qs[0] + (",\n" + tail)
    ensures IsPrefix("    ", PrettyItems(qs) + "]")
    ensures (PrettyItems(qs) + "]")[4..] == after
  {
    PrettyItemShape(qs[0], tail);
    assert PrettyItems(qs) + "]" == PrettyItem(qs[0]) + tail;
    DropPrefix("    ", after);
  }

  lemma PrettyItemShape(q: string, t: string)
    ensures PrettyItem(q) + t == "    " + (q + (",\n" + t))
  {
  }

  lemma DropPrefix(p: string, t: string)
    ensures IsPrefix(p, p + t)
    ensures (p + t)[|p|..] == t
  {
  }

  /** The one-element and empty pretty layouts are the flat layout. */
  lemma PrettyArrayShort(items: seq<string>)
    requires |items| <= 1
    ensures PrettyArray(items) == FlatArray(items)
  {
    if |items| == 1 {
      assert Concat(items) == items[0] + Concat([]);
    }
  }

  /** Reading a pretty-printed array of strings gives back the elements, in
      order, whatever its length. */
  lemma PrettyArrayRoundTrip(xs: seq<string>)
    ensures ParsePrettyArray(PrettyArray(QuoteAll(xs))) == Some(xs)
  {
    var qs := QuoteAll(xs);
    if |xs| > 1 {
      var s := PrettyArray(qs);
      assert s == "[\n" + (PrettyItems(qs) + "]");
      DropPrefix("[\n", PrettyItems(qs) + "]");
      PrettyItemsRoundTrip(xs);
    } else {
      PrettyArrayShort(qs);
      FlatArrayRoundTrip(xs);
      FlatIsNotMultiLine(xs);
    }
  }

  lemma FlatIsNotMultiLine(xs: seq<string>)
    requires |xs| <= 1
    ensures !IsPrefix("[\n", FlatArray(QuoteAll(xs)))
  {
    var s := FlatArray(QuoteAll(xs));
    if |xs| == 1 {
      var q := Quote(xs[0]);
      assert s == "[" + q + "]";
      assert s[..2][1] == q[0];
    } else {
      assert s == "[]";
      assert s[..2][1] == ']';
    }
  }
}
