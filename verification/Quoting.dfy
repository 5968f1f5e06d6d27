/** json.dumps of a string, as descriptors quote their keys, and reading it back (section 7 of
    RFC 8259). */
module Quoting {
  import opened Collections

  const HEX: string := "0123456789abcdef"

  function HexDigit(n: nat): char
    requires n < 16
  {
    HEX[n]
  }

  /** Either case is read (section 7 of RFC 8259); lower case is written. */
  function HexValue(c: char): Option<nat> {
    if '0' <= c <= '9' then Some((c - '0') as nat)
    else if 'a' <= c <= 'f' then Some((c - 'a') as nat + 10)
    else if 'A' <= c <= 'F' then Some((c - 'A') as nat + 10)
    else None
  }

  lemma HexRoundTrip(n: nat)
    requires n < 16
    ensures HexValue(HexDigit(n)) == Some(n)
  {
    assert HEX[0] == '0' && HEX[1] == '1' && HEX[2] == '2' && HEX[3] == '3' && HEX[4] == '4' && HEX[5] == '5';
  }

  lemma UpperCaseIsRead(n: nat)
    requires 10 <= n < 16
    ensures HexValue(('A' as int + (n - 10)) as char) == Some(n)
  {}

  /** `\uXXXX`. */
  function UnicodeEscape(n: nat): string
    requires n < 0x10000
  {
    var b := n / 16;
    var c := b / 16;
    ['\\', 'u', HexDigit(c / 16), HexDigit(c % 16), HexDigit(b % 16), HexDigit(n % 16)]
  }

  function HexQuad(s: string): Option<nat>
    requires |s| >= 4
  {
    match (HexValue(s[0]), HexValue(s[1]), HexValue(s[2]), HexValue(s[3]))
    case (Some(a), Some(b), Some(c), Some(d)) => Some(4096 * a + 256 * b + 16 * c + d)
    case _ => None
  }

  /** The surrogate pair of a character 0x10000 + v. */
  function High(v: nat): (n: nat)
    requires v < 0x100000
    ensures 0xD800 <= n < 0xDC00
  {
    0xD800 + v / 0x400
  }

  function Low(v: nat): (n: nat)
    requires v < 0x100000
    ensures 0xDC00 <= n < 0xE000
  {
    0xDC00 + v % 0x400
  }

  /** One character, escaped to ASCII; outside the basic plane as a surrogate pair. */
  function EscapeChar(c: char): string {
    if c == '\"' then "\\\""
    else if c == '\\' then "\\\\"
    else if c == '\n' then "\\n"
    else if c == '\r' then "\\r"
    else if c == '\t' then "\\t"
    else if c as int == 8 then "\\b"
    else if c as int == 12 then "\\f"
    else if ' ' <= c <= '~' then [c]
    else if c as int < 0x10000 then UnicodeEscape(c as nat)
    else UnicodeEscape(High(c as nat - 0x10000)) + UnicodeEscape(Low(c as nat - 0x10000))
  }

  function Escaped(s: string): string {
    if s == "" then "" else EscapeChar(s[0]) + Escaped(s[1..])
  }

  function Quoted(s: string): string {
    "\"" + Escaped(s) + "\""
  }

  /** `\uXXXX` after the backslash: a scalar value, or a high surrogate with its low one. */
  function ReadUnicode(s: string): Option<(char, string)>
    requires |s| >= 1 && s[0] == 'u'
    ensures ReadUnicode(s).Some? ==> |ReadUnicode(s).value.1| < |s|
  {
    if |s| < 5 then None
    else
      match HexQuad(s[1..])
      case None => None
      case Some(n) =>
        if n < 0xD800 || 0xE000 <= n then Some((n as char, s[5..]))
        else if n < 0xDC00 && |s| >= 11 && s[5] == '\\' && s[6] == 'u' then
          match HexQuad(s[7..])
          case None => None
          case Some(low) =>
            if 0xDC00 <= low < 0xE000 then Some(((0x10000 + (n - 0xD800) * 0x400 + (low - 0xDC00)) as char, s[11..])) else None
        else None
  }

  /** One character of a string's inside. */
  function ReadChar(s: string): Option<(char, string)>
    requires s != ""
    ensures ReadChar(s).Some? ==> |ReadChar(s).value.1| < |s|
  {
    if s[0] == '\"' || s[0] < ' ' then None
    else if s[0] != '\\' then Some((s[0], s[1..]))
    else if |s| < 2 then None
    else
      match s[1]
      case '\"' => Some(('\"', s[2..]))
      case '\\' => Some(('\\', s[2..]))
      case '/' => Some(('/', s[2..]))
      case 'b' => Some((8 as char, s[2..]))
      case 'f' => Some((12 as char, s[2..]))
      case 'n' => Some(('\n', s[2..]))
      case 'r' => Some(('\r', s[2..]))
      case 't' => Some(('\t', s[2..]))
      case 'u' => ReadUnicode(s[1..])
      case _ => None
  }

  /** The inside of a string up to its closing quote, and what follows it. */
  function ReadInside(s: string): Option<(string, string)>
    decreases |s|
  {
    if s == "" then None
    else if s[0] == '\"' then Some(("", s[1..]))
    else
      match ReadChar(s)
      case None => None
      case Some((c, rest)) =>
        match ReadInside(rest)
        case None => None
        case Some((more, after)) => Some(([c] + more, after))
  }

  function ReadQuoted(s: string): Option<(string, string)> {
    if s == "" || s[0] != '\"' then None else ReadInside(s[1..])
  }

  lemma QuadRoundTrip(n: nat, tail: string)
    requires n < 0x10000
    ensures HexQuad(UnicodeEscape(n)[2..] + tail) == Some(n)
  {
    var b := n / 16;
    var c := b / 16;
    HexRoundTrip(c / 16);
    HexRoundTrip(c % 16);
    HexRoundTrip(b % 16);
    HexRoundTrip(n % 16);
    var q := UnicodeEscape(n)[2..] + tail;
    assert q[0] == HexDigit(c / 16) && q[1] == HexDigit(c % 16) && q[2] == HexDigit(b % 16) && q[3] == HexDigit(n % 16);
    assert 16 * (c / 16) + c % 16 == c && 16 * b + n % 16 == n;
  }

  /** Two escapes, read from the first `u`. */
  lemma ReadsPair(u: string, high: nat, low: nat)
    requires 0xD800 <= high < 0xDC00 && 0xDC00 <= low < 0xE000
    requires |u| >= 11 && u[0] == 'u' && u[5] == '\\' && u[6] == 'u'
    requires HexQuad(u[1..]) == Some(high) && HexQuad(u[7..]) == Some(low)
    ensures ReadUnicode(u) == Some(((0x10000 + (high - 0xD800) * 0x400 + (low - 0xDC00)) as char, u[11..]))
  {}

  /** Where the parts of two escapes stand. */
  lemma PairLayout(a: string, b: string, tail: string)
    requires |a| == 6 && |b| == 6
    ensures var u := (a + b + tail)[1..];
      |u| >= 11 && u[0] == a[1] && u[5] == b[0] && u[6] == b[1]
      && u[1..] == a[2..] + (b + tail) && u[7..] == b[2..] + tail && u[11..] == tail
  {}

  lemma PairRoundTrip(high: nat, low: nat, c: char, tail: string)
    requires 0xD800 <= high < 0xDC00 && 0xDC00 <= low < 0xE000
    requires c as int == 0x10000 + (high - 0xD800) * 0x400 + (low - 0xDC00)
    ensures ReadChar(UnicodeEscape(high) + UnicodeEscape(low) + tail) == Some((c, tail))
  {
    var a, b := UnicodeEscape(high), UnicodeEscape(low);
    QuadRoundTrip(high, b + tail);
    QuadRoundTrip(low, tail);
    PairLayout(a, b, tail);
    ReadsPair((a + b + tail)[1..], high, low);
    ReadsEscape(a + b + tail);
  }

  lemma ReadsEscape(s: string)
    requires |s| > 1 && s[0] == '\\' && s[1] == 'u'
    ensures ReadChar(s) == ReadUnicode(s[1..])
  {}

  /** What is not escaped by itself is one \uXXXX escape. */
  lemma BasicRoundTrip(n: nat, tail: string)
    requires n < 0x10000 && !(0xD800 <= n < 0xE000)
    ensures ReadChar(UnicodeEscape(n) + tail) == Some((n as char, tail))
  {
    var s := UnicodeEscape(n) + tail;
    QuadRoundTrip(n, tail);
    var u := s[1..];
    assert s[0] == '\\' && s[1] == 'u';
    assert u[1..] == UnicodeEscape(n)[2..] + tail;
    assert u[5..] == tail;
    assert ReadChar(s) == ReadUnicode(u);
  }

  /** The characters with a two-character escape. */
  lemma ShortRoundTrip(c: char, tail: string)
    requires c == '\"' || c == '\\' || c == '\n' || c == '\r' || c == '\t' || c as int == 8 || c as int == 12
    ensures |EscapeChar(c)| == 2 && ReadChar(EscapeChar(c) + tail) == Some((c, tail))
  {
    assert (EscapeChar(c) + tail)[2..] == tail;
  }

  lemma HalvesAddUp(v: nat, high: nat, low: nat)
    requires v < 0x100000 && high == High(v) && low == Low(v)
    ensures (high - 0xD800) * 0x400 + (low - 0xDC00) == v
  {}

  lemma SupplementaryRoundTrip(v: nat, tail: string)
    requires v < 0x100000
    ensures ReadChar(UnicodeEscape(High(v)) + UnicodeEscape(Low(v)) + tail) == Some(((0x10000 + v) as char, tail))
  {
    var high, low := High(v), Low(v);
    HalvesAddUp(v, high, low);
    PairRoundTrip(high, low, (0x10000 + v) as char, tail);
  }

  lemma CharRoundTrip(c: char, tail: string)
    ensures EscapeChar(c) != "" && EscapeChar(c)[0] != '\"'
    ensures ReadChar(EscapeChar(c) + tail) == Some((c, tail))
  {
    if c as int >= 0x10000 {
      SupplementaryRoundTrip(c as nat - 0x10000, tail);
    } else if c == '\"' || c == '\\' || c == '\n' || c == '\r' || c == '\t' || c as int == 8 || c as int == 12 {
      ShortRoundTrip(c, tail);
    } else if ' ' <= c <= '~' {
      assert (EscapeChar(c) + tail)[1..] == tail;
    } else {
      BasicRoundTrip(c as nat, tail);
    }
  }

  lemma ReadsOn(s: string, c: char, rest: string, more: string, after: string)
    requires s != "" && s[0] != '\"' && ReadChar(s) == Some((c, rest)) && ReadInside(rest) == Some((more, after))
    ensures ReadInside(s) == Some(([c] + more, after))
  {}

  lemma Associates(a: string, b: string, c: string)
    ensures (a + b) + c == a + (b + c)
  {}

  lemma FirstEscape(s: string, tail: string)
    requires s != ""
    ensures Escaped(s) + tail == EscapeChar(s[0]) + (Escaped(s[1..]) + tail)
    ensures [s[0]] + s[1..] == s
  {
    Associates(EscapeChar(s[0]), Escaped(s[1..]), tail);
  }

  lemma {:induction false} InsideRoundTrip(s: string, tail: string)
    ensures ReadInside(Escaped(s) + ("\"" + tail)) == Some((s, tail))
    decreases |s|
  {
    var end := "\"" + tail;
    if s == "" {
      assert Escaped(s) + end == end && end[1..] == tail;
    } else {
      var rest := Escaped(s[1..]) + end;
      FirstEscape(s, end);
      CharRoundTrip(s[0], rest);
      InsideRoundTrip(s[1..], tail);
      ReadsOn(EscapeChar(s[0]) + rest, s[0], rest, s[1..], tail);
    }
  }

  lemma QuoteOpens(inside: string, tail: string)
    ensures var quoted := "\"" + inside + "\"" + tail;
      quoted[0] == '\"' && quoted[1..] == inside + ("\"" + tail)
  {}

  /** Every string read back from its quoted form is itself, whatever text follows it: no character
      of a key can end the literal early. */
  lemma QuotedRoundTrip(s: string, tail: string)
    ensures ReadQuoted(Quoted(s) + tail) == Some((s, tail))
  {
    QuoteOpens(Escaped(s), tail);
    InsideRoundTrip(s, tail);
  }

  /** A string's inside has no raw quote or control character. */
  lemma RawIsRefused(s: string)
    requires s != "" && (s[0] < ' ' || s[0] == '\"')
    ensures ReadChar(s).None?
  {}

  predicate Plain(c: char) {
    ' ' <= c <= '~' && c != '\"' && c != '\\'
  }

  lemma HexIsPlain(n: nat)
    requires n < 16
    ensures Plain(HexDigit(n)) && HexDigit(n) in "0123456789abcdef"
  {}

  predicate Printable(s: string) {
    forall i | 0 <= i < |s| :: ' ' <= s[i] <= '~'
  }

  lemma EscapeIsPrintable(n: nat)
    requires n < 0x10000
    ensures Printable(UnicodeEscape(n))
  {
    var b := n / 16;
    var c := b / 16;
    HexIsPlain(c / 16);
    HexIsPlain(c % 16);
    HexIsPlain(b % 16);
    HexIsPlain(n % 16);
  }

  lemma EscapedChar(c: char)
    ensures Plain(c) ==> EscapeChar(c) == [c]
    ensures Printable(EscapeChar(c))
  {
    if c as int >= 0x10000 {
      EscapeIsPrintable(High(c as nat - 0x10000));
      EscapeIsPrintable(Low(c as nat - 0x10000));
    } else if !(' ' <= c <= '~') {
      EscapeIsPrintable(c as nat);
    }
  }

  /** The quoted text is printable ASCII, and plain texts stand in it as they are. */
  lemma {:induction false} EscapedIsPrintable(s: string)
    ensures Printable(Escaped(s))
    ensures (forall c :: c in s ==> Plain(c)) ==> Escaped(s) == s
    decreases |s|
  {
    if s != "" {
      EscapedChar(s[0]);
      EscapedIsPrintable(s[1..]);
      assert s == [s[0]] + s[1..];
    }
  }

  lemma QuotedIsPrintable(s: string)
    ensures Printable(Quoted(s))
    ensures (forall c :: c in s ==> Plain(c)) ==> Quoted(s) == "\"" + s + "\""
  {
    EscapedIsPrintable(s);
  }

  /** A member as a path names it: `$.` and the quoted key. */
  function MemberText(key: string): string {
    "$." + Quoted(key)
  }
}
