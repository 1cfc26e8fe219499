/** Go's strconv.Quote and strconv.Unquote for double-quoted strings. */
module GoQuote {
  import opened Text

  // ---- hexadecimal digits ----

  function HexDigit(n: nat): char
    requires n < 16
  {
    "0123456789abcdef"[n]
  }

  function HexValue(c: char): Option<nat> {
    if '0' <= c <= '9' then Some(c as int - '0' as int)
    else if 'a' <= c <= 'f' then Some(c as int - 'a' as int + 10)
    else if 'A' <= c <= 'F' then Some(c as int - 'A' as int + 10)
    else None
  }

  function Pow16(k: nat): (p: nat)
    ensures p > 0
  {
    if k == 0 then 1 else 16 * Pow16(k - 1)
  }

  /** The k lowest hexadecimal digits of n. */
  function Hex(n: nat, k: nat): (s: string)
    ensures |s| == k
  {
    if k == 0 then [] else Hex(n / 16, k - 1) + [HexDigit(n % 16)]
  }

  function UnHex(s: string): Option<nat> {
    if s == [] then Some(0)
    else
      match (UnHex(s[..|s| - 1]), HexValue(s[|s| - 1]))
      case (Some(a), Some(b)) => Some(16 * a + b)
      case _ => None
  }

  lemma HexDigitValue(n: nat)
    requires n < 16
    ensures HexValue(HexDigit(n)) == Some(n)
    ensures HexDigit(n) != '"' && HexDigit(n) != '\\' && HexDigit(n) != ' ' && HexDigit(n) != '#'
  {}

  lemma {:induction false} UnHexHex(n: nat, k: nat)
    requires n < Pow16(k)
    ensures UnHex(Hex(n, k)) == Some(n)
  {
    if k > 0 {
      UnHexHex(n / 16, k - 1);
      HexDigitValue(n % 16);
      assert Hex(n, k)[..k - 1] == Hex(n / 16, k - 1);
    }
  }

  /** Characters that mean nothing to the scanner or to the comment cut. */
  predicate Plain(s: string) {
    forall c :: c in s ==> c != '"' && c != '\\' && c != ' ' && c != '#' && c != '\n'
  }

  lemma {:induction false} HexIsPlain(n: nat, k: nat)
    ensures Plain(Hex(n, k))
  {
    if k > 0 {
      HexIsPlain(n / 16, k - 1);
      HexDigitValue(n % 16);
      assert HexDigit(n % 16) != '\n';
    }
  }

  // ---- quoting ----

  /** strconv.IsPrint on ASCII; above it, everything but white space, U+00AD and
      the private-use planes. No lemma depends on which characters these are. */
  predicate IsPrint(c: char) {
    || ' ' <= c <= '~'
    || (c > '\U{00A0}' && c != '\U{00AD}' && !IsSpace(c)
        && !('\U{E000}' <= c <= '\U{F8FF}') && c < '\U{F0000}')
  }

  /** The letter of a one-letter escape, or '?'. */
  function ShortEscape(c: char): char {
    if c == '\U{0007}' then 'a'
    else if c == '\U{0008}' then 'b'
    else if c == '\U{000C}' then 'f'
    else if c == '\n' then 'n'
    else if c == '\r' then 'r'
    else if c == '\t' then 't'
    else if c == '\U{000B}' then 'v'
    else '?'
  }

  function QuoteChar(c: char): string {
    if c == '"' || c == '\\' then ['\\', c]
    else if IsPrint(c) then [c]
    else if ShortEscape(c) != '?' then ['\\', ShortEscape(c)]
    else if c < ' ' || c == '\U{007F}' then ['\\', 'x'] + Hex(c as int, 2)
    else if c as int < 0x10000 then ['\\', 'u'] + Hex(c as int, 4)
    else ['\\', 'U'] + Hex(c as int, 8)
  }

  function QuoteBody(v: string): string {
    if v == [] then [] else QuoteChar(v[0]) + QuoteBody(v[1..])
  }

  /** strconv.Quote. */
  function Quote(v: string): string {
    "\"" + QuoteBody(v) + "\""
  }

  // ---- unquoting ----

  function LongEscape(c: char): string {
    if c == 'a' then ['\U{0007}']
    else if c == 'b' then ['\U{0008}']
    else if c == 'f' then ['\U{000C}']
    else if c == 'n' then ['\n']
    else if c == 'r' then ['\r']
    else if c == 't' then ['\t']
    else if c == 'v' then ['\U{000B}']
    else if c == '\\' || c == '"' then [c]
    else []
  }

  /** The character with this number, or nothing for numbers that are none.
      Escapes of single bytes from 0x80 up are not characters. */
  function CharOf(n: Option<nat>, limit: nat): Option<char> {
    if n.Some? && n.value < limit && (n.value < 0xD800 || 0xE000 <= n.value < 0x110000)
    then Some(n.value as char) else None
  }

  function UnOctal(a: char, b: char, c: char): Option<nat> {
    if '0' <= a <= '7' && '0' <= b <= '7' && '0' <= c <= '7'
    then Some((a as int - '0' as int) * 64 + (b as int - '0' as int) * 8 + (c as int - '0' as int))
    else None
  }

  /** One character off the front of s: the character and how much was read. */
  function UnquoteChar(s: string): Option<(char, nat)>
    requires s != []
  {
    if s[0] == '"' || s[0] == '\n' then None
    else if s[0] != '\\' then Some((s[0], 1))
    else if |s| == 1 then None
    else if LongEscape(s[1]) != [] then Some((LongEscape(s[1])[0], 2))
    else
      var (n, limit, width) :=
        if s[1] == 'x' && |s| >= 4 then (UnHex(s[2..4]), 0x80, 4)
        else if s[1] == 'u' && |s| >= 6 then (UnHex(s[2..6]), 0x10000, 6)
        else if s[1] == 'U' && |s| >= 10 then (UnHex(s[2..10]), 0x110000, 10)
        else if |s| >= 4 then (UnOctal(s[1], s[2], s[3]), 0x80, 4)
        else (None, 0, 0);
      var c := CharOf(n, limit);
      if c.Some? then Some((c.value, width)) else None
  }

  /** What follows the opening quote: the value, when s ends with the closing one. */
  function UnquoteTail(s: string): Option<string>
    decreases |s|
  {
    if s == [] then None
    else if s[0] == '"' then if |s| == 1 then Some([]) else None
    else
      match UnquoteChar(s)
      case None => None
      case Some((c, width)) =>
        if width == 0 || width > |s| then None
        else
          match UnquoteTail(s[width..])
          case None => None
          case Some(rest) => Some([c] + rest)
  }

  /** strconv.Unquote of a double-quoted string. */
  function Unquote(s: string): Option<string> {
    if |s| >= 2 && s[0] == '"' then UnquoteTail(s[1..]) else None
  }

  // ---- round trip ----

  lemma Pow16Values()
    ensures Pow16(2) == 0x100 && Pow16(4) == 0x10000 && Pow16(8) == 0x1_0000_0000
  {
    assert Pow16(3) == 16 * Pow16(2);
    assert Pow16(5) == 16 * Pow16(4);
    assert Pow16(6) == 16 * Pow16(5);
    assert Pow16(7) == 16 * Pow16(6);
  }

  lemma HexAt(s: string, e: string, rest: string, n: nat, k: nat)
    requires s == e + Hex(n, k) + rest && |e| == 2
    ensures |s| >= 2 + k && s[2..2 + k] == Hex(n, k)
  {}

  /** The escape of a character by its number is k digits long. */
  predicate Escaped(c: char, letter: char, k: nat) {
    QuoteChar(c) == ['\\', letter] + Hex(c as int, k) && c as int < Pow16(k)
  }

  lemma EscapeDigits(c: char, letter: char, k: nat, rest: string)
    requires Escaped(c, letter, k)
    ensures var s := QuoteChar(c) + rest;
      |s| >= 2 + k && s[0] == '\\' && s[1] == letter && UnHex(s[2..2 + k]) == Some(c as int)
  {
    UnHexHex(c as int, k);
    HexAt(QuoteChar(c) + rest, ['\\', letter], rest, c as int, k);
  }

  lemma Escapes(c: char)
    requires |QuoteChar(c)| > 2
    ensures (c < '\U{0080}' && Escaped(c, 'x', 2)) || (c as int < 0x10000 && Escaped(c, 'u', 4)) || Escaped(c, 'U', 8)
  {
    Pow16Values();
  }

  lemma UnquoteQuotedChar(c: char, rest: string)
    ensures UnquoteChar(QuoteChar(c) + rest) == Some((c, |QuoteChar(c)|))
  {
    if |QuoteChar(c)| > 2 {
      Escapes(c);
      if c < '\U{0080}' && Escaped(c, 'x', 2) {
        EscapeDigits(c, 'x', 2, rest);
      } else if c as int < 0x10000 && Escaped(c, 'u', 4) {
        EscapeDigits(c, 'u', 4, rest);
      } else {
        EscapeDigits(c, 'U', 8, rest);
      }
    }
  }

  lemma {:induction false} UnquoteBody(v: string)
    ensures UnquoteTail(QuoteBody(v) + "\"") == Some(v)
  {
    if v != [] {
      var q, rest := QuoteChar(v[0]), QuoteBody(v[1..]) + "\"";
      assert QuoteBody(v) + "\"" == q + rest;
      UnquoteQuotedChar(v[0], rest);
      assert (q + rest)[|q|..] == rest;
      UnquoteBody(v[1..]);
      assert [v[0]] + v[1..] == v;
    }
  }

  lemma UnquoteQuote(v: string)
    ensures Unquote(Quote(v)) == Some(v)
  {
    assert Quote(v)[1..] == QuoteBody(v) + "\"";
    UnquoteBody(v);
  }

  // ---- cutting a quoted string short ----

  lemma PartialChar(c: char, s: string)
    requires s != [] && s < QuoteChar(c)
    ensures s[0] != '"' && UnquoteChar(s) == None
  {
    var q := QuoteChar(c);
    assert |q| > 1 && s[0] == q[0] == '\\';
    if |s| > 1 {
      assert s[1] == q[1];
      if |s| >= 4 {
        assert s[1] == 'u' || s[1] == 'U';
      }
    }
  }

  /** No proper prefix of a quoted string is itself a quoted string. */
  lemma {:induction false} UnquotePrefix(v: string, s: string)
    requires s < QuoteBody(v) + "\""
    ensures UnquoteTail(s) == None
    decreases |v|
  {
    if v == [] {
      assert s == [];
    } else if s != [] {
      var q, rest := QuoteChar(v[0]), QuoteBody(v[1..]) + "\"";
      assert QuoteBody(v) + "\"" == q + rest;
      if |s| < |q| {
        assert s == (q + rest)[..|s|] == q[..|s|];
        PartialChar(v[0], s);
      } else {
        assert s == q + s[|q|..] && s[|q|..] == rest[..|s| - |q|];
        UnquoteQuotedChar(v[0], s[|q|..]);
        UnquotePrefix(v[1..], s[|q|..]);
      }
    }
  }

  // ---- " #" ----

  /** Where " #" first stands at or after i, or the length. */
  function HashIndex(s: string, i: nat): (k: nat)
    requires i <= |s|
    ensures i <= k <= |s|
    ensures k < |s| ==> k + 1 < |s| && s[k] == ' ' && s[k + 1] == '#'
    ensures forall j :: i <= j < k && j + 1 < |s| ==> !(s[j] == ' ' && s[j + 1] == '#')
    decreases |s| - i
  {
    if i == |s| then i
    else if i + 1 < |s| && s[i] == ' ' && s[i + 1] == '#' then i
    else HashIndex(s, i + 1)
  }

  predicate HasHash(s: string) {
    HashIndex(s, 0) < |s|
  }

  lemma HasHashAt(s: string, j: nat)
    requires j + 1 < |s| && s[j] == ' ' && s[j + 1] == '#'
    ensures HasHash(s)
  {}

  lemma QuoteCharEnds(c: char)
    ensures var q := QuoteChar(c);
      && q != []
      && (q[0] == '#' <==> c == '#') && (q[|q| - 1] == ' ' <==> c == ' ')
      && (|q| > 1 ==> forall d :: d in q ==> d != ' ' && d != '#')
      && (forall d :: d in q ==> d != '\n')
  {
    HexIsPlain(c as int, 2);
    HexIsPlain(c as int, 4);
    HexIsPlain(c as int, 8);
  }

  /** " #" in s is at its front or in what follows. */
  lemma HashInConcat(q: string, rest: string)
    requires q != [] && (|q| > 1 ==> ' ' !in q)
    ensures HasHash(q + rest) <==> HasHash(rest) || (q == [' '] && rest != [] && rest[0] == '#')
  {
    var s := q + rest;
    if HasHash(s) {
      var k := HashIndex(s, 0);
      if k >= |q| {
        assert rest[k - |q|] == s[k] && rest[k - |q| + 1] == s[k + 1];
        HasHashAt(rest, k - |q|);
      } else {
        assert s[k] == q[k] && q[k] in q;
      }
    }
    if HasHash(rest) {
      var j := HashIndex(rest, 0);
      assert s[|q| + j] == rest[j] && s[|q| + j + 1] == rest[j + 1];
      HasHashAt(s, |q| + j);
    }
    if q == [' '] && rest != [] && rest[0] == '#' {
      HasHashAt(s, 0);
    }
  }

  lemma QuoteBodyStart(v: string)
    ensures (QuoteBody(v) + "\"")[0] == '#' <==> v != [] && v[0] == '#'
  {
    if v != [] {
      QuoteCharEnds(v[0]);
      assert (QuoteBody(v) + "\"")[0] == QuoteChar(v[0])[0];
    }
  }

  lemma {:induction false} QuoteBodyHash(v: string)
    ensures HasHash(QuoteBody(v) + "\"") <==> HasHash(v)
    decreases |v|
  {
    if v != [] {
      var q, rest := QuoteChar(v[0]), QuoteBody(v[1..]) + "\"";
      assert QuoteBody(v) + "\"" == q + rest;
      QuoteCharEnds(v[0]);
      HashInConcat(q, rest);
      QuoteBodyHash(v[1..]);
      QuoteBodyStart(v[1..]);
      assert [v[0]] + v[1..] == v;
      HashInConcat([v[0]], v[1..]);
    }
  }

  lemma QuoteHash(v: string)
    ensures HasHash(Quote(v)) <==> HasHash(v)
  {
    QuoteBodyHash(v);
    var s := QuoteBody(v) + "\"";
    assert Quote(v)[0] == '"' && Quote(v)[1..] == s;
    if HasHash(s) {
      HasHashAt(Quote(v), HashIndex(s, 0) + 1);
    }
    if HasHash(Quote(v)) {
      HasHashAt(s, HashIndex(Quote(v), 0) - 1);
    }
  }
}
