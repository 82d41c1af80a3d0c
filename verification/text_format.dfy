/**
 * Text produced inside tokens: the two escape tables (strings and one-byte character values
 * escape the backslash, character cells do not) and the `std::hex << std::showbase`
 * rendering of numbers used in comments.
 */
module TextFormat {
  import opened Types

  /** The letter that follows a backslash for the eight control characters both tables escape. */
  function ControlLetter(c: char): Option<char>
  {
    if c == 0 as char then Some('0')
    else if c == 7 as char then Some('a')
    else if c == 8 as char then Some('b')
    else if c == 9 as char then Some('t')
    else if c == 10 as char then Some('n')
    else if c == 11 as char then Some('v')
    else if c == 12 as char then Some('f')
    else if c == 13 as char then Some('r')
    else None
  }

  /** The escape letter of the string table: the eight controls plus the backslash itself. */
  function EscapeLetter(c: char): Option<char>
  {
    if c == '\\' then Some('\\') else ControlLetter(c)
  }

  /** The character an escape letter of the string table stands for. */
  function LetterValue(l: char): Option<char>
  {
    if l == '0' then Some(0 as char)
    else if l == '\\' then Some('\\')
    else if l == 'a' then Some(7 as char)
    else if l == 'b' then Some(8 as char)
    else if l == 't' then Some(9 as char)
    else if l == 'n' then Some(10 as char)
    else if l == 'v' then Some(11 as char)
    else if l == 'f' then Some(12 as char)
    else if l == 'r' then Some(13 as char)
    else None
  }

  /** One character escaped by the string table: a backslash and a letter, or the character itself. */
  function EscapeChar(c: char): string
  {
    match EscapeLetter(c)
    case Some(l) => ['\\', l]
    case None => [c]
  }

  /** One byte escaped by the character-cell table, which leaves the backslash alone. */
  function CharacterEscape(c: char): string
  {
    match ControlLetter(c)
    case Some(l) => ['\\', l]
    case None => [c]
  }

  /** A text escaped character by character with the string table. */
  function Escape(s: string): string
  {
    if s == [] then [] else EscapeChar(s[0]) + Escape(s[1..])
  }

  /** Reads an escaped text back; None when a backslash is not followed by an escape letter. */
  function Unescape(t: string): Option<string>
  {
    if t == [] then Some([])
    else if t[0] != '\\' then
      match Unescape(t[1..])
      case None => None
      case Some(rest) => Some([t[0]] + rest)
    else if |t| >= 2 && LetterValue(t[1]).Some? then
      match Unescape(t[2..])
      case None => None
      case Some(rest) => Some([LetterValue(t[1]).value] + rest)
    else None
  }

  /** Reads a character-cell text back to the byte it renders. */
  function CharacterUnescape(t: string): Option<char>
  {
    if |t| == 1 then Some(t[0])
    else if |t| == 2 && t[0] == '\\' && t[1] != '\\' && LetterValue(t[1]).Some? then LetterValue(t[1])
    else None
  }

  lemma LetterValueInvertsEscapeLetter(c: char)
    ensures EscapeLetter(c).Some? ==> LetterValue(EscapeLetter(c).value) == Some(c)
  {
  }

  /** Each character's escape is one or two characters, and only special ones become two. */
  lemma EscapeCharShape(c: char)
    ensures |EscapeChar(c)| == (if EscapeLetter(c).Some? then 2 else 1)
    ensures EscapeLetter(c).None? ==> EscapeChar(c) == [c]
    ensures EscapeLetter(c).Some? ==> EscapeChar(c)[0] == '\\'
  {
  }

  /** Escaping distributes over concatenation; the string formatter's loop relies on it. */
  lemma {:induction false} EscapeAppend(a: string, b: string)
    ensures Escape(a + b) == Escape(a) + Escape(b)
  {
    if a == [] {
      assert a + b == b;
    } else {
      assert (a + b)[0] == a[0];
      assert (a + b)[1..] == a[1..] + b;
      EscapeAppend(a[1..], b);
    }
  }

  /** Unescaping undoes escaping, so the string a formatter prints determines the text it read. */
  lemma {:induction false} UnescapeEscape(s: string)
    ensures Unescape(Escape(s)) == Some(s)
  {
    if s != [] {
      var head := EscapeChar(s[0]);
      var t := Escape(s);
      assert t == head + Escape(s[1..]);
      UnescapeEscape(s[1..]);
      LetterValueInvertsEscapeLetter(s[0]);
      if EscapeLetter(s[0]).Some? {
        assert t[0] == '\\' && t[1] == EscapeLetter(s[0]).value;
        assert t[2..] == Escape(s[1..]);
      } else {
        assert t[0] == s[0] && s[0] != '\\';
        assert t[1..] == Escape(s[1..]);
      }
      assert [s[0]] + s[1..] == s;
    }
  }

  /** Different texts never escape to the same text. */
  lemma EscapeInjective(s1: string, s2: string)
    ensures Escape(s1) == Escape(s2) ==> s1 == s2
  {
    UnescapeEscape(s1);
    UnescapeEscape(s2);
  }

  /** The escaped text is at least as long as the text and at most twice as long. */
  lemma {:induction false} EscapeLength(s: string)
    ensures |s| <= |Escape(s)| <= 2 * |s|
  {
    if s != [] {
      EscapeCharShape(s[0]);
      EscapeLength(s[1..]);
    }
  }

  /** A character-cell text reads back to the byte it renders. */
  lemma CharacterRoundTrip(c: char)
    ensures CharacterUnescape(CharacterEscape(c)) == Some(c)
  {
  }

  /** The two tables agree on every character except the backslash, which only strings escape. */
  lemma CharacterEscapeVersusEscapeChar(c: char)
    ensures CharacterEscape(c) == EscapeChar(c) <==> c != '\\'
    ensures CharacterEscape('\\') == "\\" && EscapeChar('\\') == "\\\\"
  {
  }

  // ---- numbers in hexadecimal -------------------------------------------------------

  function HexDigit(d: nat): char
    requires d < 16
  {
    if d < 10 then ('0' as int + d) as char else ('a' as int + d - 10) as char
  }

  function DigitValue(c: char): nat
  {
    if '0' <= c <= '9' then c as int - '0' as int
    else if 'a' <= c <= 'f' then c as int - 'a' as int + 10
    else 0
  }

  predicate IsHexDigit(c: char)
  {
    '0' <= c <= '9' || 'a' <= c <= 'f'
  }

  /** The lower-case hexadecimal digits of a positive number, most significant first. */
  function HexDigits(n: nat): string
    requires n > 0
    decreases n
  {
    if n < 16 then [HexDigit(n)] else HexDigits(n / 16) + [HexDigit(n % 16)]
  }

  /** The number a string of hexadecimal digits denotes. */
  function HexValue(s: string): nat
  {
    if s == [] then 0 else 16 * HexValue(s[..|s| - 1]) + DigitValue(s[|s| - 1])
  }

  /**
   * A number as `std::hex << std::showbase` prints it: "0x" and the digits, except that zero
   * is printed as a bare "0".
   */
  function HexText(n: nat): string
  {
    if n == 0 then "0" else "0x" + HexDigits(n)
  }

  /** Positive numbers print as hexadecimal digits with no leading zero, which read back to the number. */
  lemma {:induction false} HexDigitsRoundTrip(n: nat)
    requires n > 0
    ensures |HexDigits(n)| >= 1 && HexDigits(n)[0] != '0'
    ensures forall k | 0 <= k < |HexDigits(n)| :: IsHexDigit(HexDigits(n)[k])
    ensures HexValue(HexDigits(n)) == n
    decreases n
  {
    if n >= 16 {
      HexDigitsRoundTrip(n / 16);
      var s := HexDigits(n);
      assert s[..|s| - 1] == HexDigits(n / 16);
    }
  }

  /** Different numbers print differently. */
  lemma HexTextInjective(m: nat, n: nat)
    ensures HexText(m) == HexText(n) ==> m == n
  {
    if m > 0 {
      HexDigitsRoundTrip(m);
    }
    if n > 0 {
      HexDigitsRoundTrip(n);
    }
    if m > 0 && n > 0 && HexText(m) == HexText(n) {
      assert HexDigits(m) == HexText(m)[2..] == HexText(n)[2..] == HexDigits(n);
    }
  }

  /** A printed number contains no comma (so a comma can safely separate two printed numbers). */
  lemma HexTextHasNoComma(n: nat)
    ensures ',' !in HexText(n)
  {
    if n > 0 {
      HexDigitsRoundTrip(n);
      var s := HexText(n);
      forall k | 2 <= k < |s| ensures s[k] != ',' {
        assert s[k] == HexDigits(n)[k - 2];
      }
    }
  }
}
