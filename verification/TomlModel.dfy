/** The employee's own model choice: reading it from the existing file and
    writing it into the delivered fragment (rootStringValue, setRootString). */
module TomlModel {
  import opened Text
  import opened GoQuote
  import opened TomlScan
  import opened TomlSections
  import opened TomlStrip
  import opened TomlAssembly

  /** The string value of a `key = "value"` line, when it is one. */
  function ReadValue(trimmed: string): Option<string> {
    var eq := IndexFrom(trimmed, '=', 0);
    if eq == |trimmed| then None else ValueOf(CutComment(TrimSpace(trimmed[eq + 1..])))
  }

  /** The value without the comment that " #" is taken to begin. */
  function CutComment(whole: string): string {
    var hash := HashIndex(whole, 0);
    if 0 < hash < |whole| then TrimSpace(whole[..hash]) else whole
  }

  function ValueOf(value: string): Option<string> {
    if |value| < 2 then None
    else if value[0] == '"' && value[|value| - 1] == '"' then Unquote(value)
    else if value[0] == '\'' && value[|value| - 1] == '\'' then Some(value[1..|value| - 1])
    else None
  }

  /** The line is a root-level assignment of key. */
  predicate AssignsAtRoot(table: Option<string>, cs: seq<TomlLine>, key: string)
    requires cs != []
  {
    && !cs[0].continuation && !cs[0].isHeader
    && Owner(table, cs).None?
    && KeyOf(cs[0].text) == Some(key)
  }

  /** The value of the first root-level assignment of key. */
  function RootString(table: Option<string>, cs: seq<TomlLine>, key: string): Option<string>
    decreases |cs|
  {
    if cs == [] then None
    else if AssignsAtRoot(table, cs, key) then ReadValue(TrimSpace(cs[0].text))
    else RootString(Enter(table, cs[0]), cs[1..], key)
  }

  function SetValue(l: Line, v: string): Line {
    var eq := IndexFrom(l, '=', 0);
    if eq == |l| then l else l[..eq + 1] + " " + Quote(v)
  }

  function SetRoot(table: Option<string>, cs: seq<TomlLine>, key: string, v: string): seq<Line>
    decreases |cs|
  {
    if cs == [] then []
    else
      [if AssignsAtRoot(table, cs, key) then SetValue(cs[0].text, v) else cs[0].text]
      + SetRoot(Enter(table, cs[0]), cs[1..], key, v)
  }

  function RootStringText(src: string, key: string): Option<string> {
    if Scannable(src) then RootString(None, Scan(Lines(src)), key) else None
  }

  function SetRootText(src: string, key: string, v: string): string {
    Join(SetRoot(None, Scan(Lines(src)), key, v))
  }

  // ---- the loops ----

  /** The key test both loops make on line i. */
  method IsRootAssignment(lines: seq<TomlLine>, i: nat, owner: int, key: string, ghost table: Option<string>)
    returns (b: bool)
    requires i < |lines| && -1 <= owner < |lines|
    requires NameAt(lines, owner) == Owner(Enter(table, lines[i]), lines[i..])
    ensures b == AssignsAtRoot(table, lines[i..], key)
  {
    var ln := lines[i];
    if ln.continuation || ln.isHeader || owner != -1 {
      return false;
    }
    b := RootKey(TrimSpace(ln.text)) == Some(key);
  }

  method RootStringValue(src: string, key: string) returns (value: Option<string>)
    ensures value == RootStringText(src, key)
  {
    var lines, ok := ScanTomlLines(src);
    if !ok {
      return None;
    }
    ScanHeadersAreNotFiller(Lines(src));
    var owner := TomlSectionOwners(lines);
    value := FindRootString(lines, owner, key);
  }

  method FindRootString(lines: seq<TomlLine>, owner: array<int>, key: string) returns (value: Option<string>)
    requires IsOwnerMap(lines, owner[..])
    ensures value == RootString(None, lines, key)
  {
    ghost var table: Option<string> := None;
    assert lines[..0] == [] && lines[0..] == lines;
    for i := 0 to |lines|
      invariant table == TableAfter(None, lines[..i])
      invariant RootString(table, lines[i..], key) == RootString(None, lines, key)
    {
      assert OwnerSlot(lines, i, owner[..][i]);
      SlotMeaning(lines, i, owner[i], table);
      var hit := IsRootAssignment(lines, i, owner[i], key, table);
      assert lines[i..][0] == lines[i] && lines[i..][1..] == lines[i + 1..];
      if hit {
        return ReadValue(TrimSpace(lines[i].text));
      }
      table := Enter(table, lines[i]);
    }
    assert lines[|lines|..] == [];
    return None;
  }

  method SetRootString(src: string, key: string, value: string) returns (out: string, ok: bool)
    ensures ok == Scannable(src) && (ok ==> out == SetRootText(src, key, value))
  {
    var lines;
    lines, ok := ScanTomlLines(src);
    if !ok {
      return "", false;
    }
    ScanHeadersAreNotFiller(Lines(src));
    var owner := TomlSectionOwners(lines);
    out := SetLines(lines, owner, key, value);
  }

  lemma SetRootUnfold(a: seq<Line>, table: Option<string>, cs: seq<TomlLine>, i: nat, key: string, v: string)
    requires i < |cs|
    ensures a + SetRoot(table, cs[i..], key, v)
      == a + [if AssignsAtRoot(table, cs[i..], key) then SetValue(cs[i].text, v) else cs[i].text]
         + SetRoot(Enter(table, cs[i]), cs[i + 1..], key, v)
  {
    assert cs[i..][1..] == cs[i + 1..];
  }

  method SetLines(lines: seq<TomlLine>, owner: array<int>, key: string, value: string) returns (out: string)
    requires IsOwnerMap(lines, owner[..])
    ensures out == Join(SetRoot(None, lines, key, value))
  {
    out := "";
    ghost var done: seq<Line> := [];
    ghost var table: Option<string> := None;
    assert lines[..0] == [] && lines[0..] == lines;
    for i := 0 to |lines|
      invariant table == TableAfter(None, lines[..i])
      invariant out == Join(done)
      invariant done + SetRoot(table, lines[i..], key, value) == SetRoot(None, lines, key, value)
    {
      assert OwnerSlot(lines, i, owner[..][i]);
      SlotMeaning(lines, i, owner[i], table);
      SetRootUnfold(done, table, lines, i, key, value);
      var text := lines[i].text;
      var hit := IsRootAssignment(lines, i, owner[i], key, table);
      if hit {
        text := SetValue(text, value);
      }
      out := out + text + "\n";
      JoinConcat(done, [text]);
      assert Join([text]) == text + "\n";
      done := done + [text];
      table := Enter(table, lines[i]);
    }
    assert lines[|lines|..] == [];
    assert done == SetRoot(None, lines, key, value);
  }

  // ---- one line ----

  lemma {:induction false} TrimRightReaches(s: string, j: nat)
    requires j < |s| && !IsSpace(s[j])
    ensures |TrimRight(s)| > j
    decreases |s|
  {
    if IsSpace(s[|s| - 1]) {
      TrimRightReaches(s[..|s| - 1], j);
    }
  }

  lemma {:induction false} IndentIs(s: string, k: nat)
    requires k < |s| && !IsSpace(s[k])
    requires forall i :: 0 <= i < k ==> IsSpace(s[i])
    ensures Indent(s) == k
    decreases k
  {
    if k > 0 {
      IndentIs(s[1..], k - 1);
    }
  }

  /** The trimmed line up to a character that is not white space. */
  lemma TrimUpTo(l: Line, i: nat, j: nat)
    requires i <= j < |l| && !IsSpace(l[i]) && !IsSpace(l[j])
    requires forall k :: 0 <= k < i ==> IsSpace(l[k])
    ensures |TrimSpace(l)| > j - i
    ensures TrimSpace(l) <= l[i..]
    ensures j == |l| - 1 ==> TrimSpace(l) == l[i..]
  {
    IndentIs(l, i);
    TrimRightReaches(l[i..], j - i);
    TrimRightMeaning(l[i..]);
  }

  lemma IndexIs(s: string, c: char, k: nat)
    requires k < |s| && s[k] == c && forall j :: 0 <= j < k ==> s[j] != c
    ensures IndexFrom(s, c, 0) == k
  {
    IndexMeaning(s, c, 0);
  }

  predicate FirstEquals(l: Line, eq: nat) {
    eq < |l| && l[eq] == '=' && forall k :: 0 <= k < eq ==> l[k] != '='
  }

  /** The trimmed line has its first `=` in the same place. */
  lemma TrimmedEquals(l: Line, eq: nat)
    requires FirstEquals(l, eq)
    ensures var i, t := Indent(l[..eq]), TrimSpace(l);
      && eq - i < |t| && t <= l[i..] && FirstEquals(t, eq - i) && t[..eq - i] == l[..eq][i..]
  {
    var p := l[..eq];
    var i := Indent(p);
    IndentMeaning(p);
    assert forall k :: 0 <= k < i ==> IsSpace(p[k]) && l[k] == p[k];
    assert i < eq ==> l[i] == p[i];
    TrimUpTo(l, i, eq);
    EqualsInPart(l, eq, i, TrimSpace(l));
  }

  lemma EqualsInPart(l: Line, eq: nat, i: nat, t: string)
    requires FirstEquals(l, eq) && i <= eq && t <= l[i..] && eq - i < |t|
    ensures FirstEquals(t, eq - i) && t[..eq - i] == l[..eq][i..]
  {
    assert forall k :: 0 <= k < |t| ==> t[k] == l[i..][k] == l[i + k];
  }

  /** The key depends only on what stands before the first `=`. */
  lemma KeyOfPrefix(l: Line, eq: nat)
    requires FirstEquals(l, eq)
    ensures var p := l[..eq];
      KeyOf(l) == if Indent(p) == eq || p[Indent(p)] == '#' then None else KeyName(p[Indent(p)..])
  {
    TrimmedEquals(l, eq);
    var t, n := TrimSpace(l), eq - Indent(l[..eq]);
    IndexIs(t, '=', n);
    assert n > 0 ==> t[0] == t[..n][0];
  }

  lemma KeyHasEquals(l: Line)
    requires KeyOf(l).Some?
    ensures IndexFrom(l, '=', 0) < |l| && FirstEquals(l, IndexFrom(l, '=', 0))
  {
    var t, i := TrimSpace(l), Indent(l);
    var k := IndexFrom(t, '=', 0);
    IndexMeaning(t, '=', 0);
    TrimRightMeaning(l[i..]);
    SuffixHas(l, i, t, k);
  }

  lemma SuffixHas(l: Line, i: nat, t: string, k: nat)
    requires i <= |l| && t <= l[i..] && k < |t| && t[k] == '='
    ensures FirstEquals(l, IndexFrom(l, '=', 0))
  {
    IndexMeaning(l, '=', 0);
    assert l[i + k] == l[i..][k] == t[k];
  }

  lemma WriteAfter(l: Line, eq: nat, q: string)
    requires FirstEquals(l, eq) && q != []
    ensures var l' := l[..eq + 1] + " " + q;
      && FirstEquals(l', eq) && eq + 2 < |l'|
      && l'[..eq + 1] == l[..eq + 1] && l'[..eq] == l[..eq]
      && l'[eq + 1] == ' ' && l'[eq + 1..] == " " + q && l'[eq + 2..] == q
  {
    var l' := l[..eq + 1] + " " + q;
    assert forall k :: 0 <= k <= eq ==> l'[k] == l[..eq + 1][k] == l[k];
    assert l'[..eq] == l[..eq + 1][..eq];
  }

  /** The written line: the old one up to its `=`, a blank, the quoted value. */
  lemma SetValueParts(l: Line, v: string)
    requires KeyOf(l).Some?
    ensures var eq, l' := IndexFrom(l, '=', 0), SetValue(l, v);
      && eq < |l| && eq + 2 < |l'|
      && l' == l[..eq + 1] + " " + Quote(v)
      && l'[..eq + 1] == l[..eq + 1] && l'[..eq] == l[..eq]
      && l'[eq] == '=' && l'[eq + 1] == ' ' && l'[eq + 1..] == " " + Quote(v) && l'[eq + 2..] == Quote(v)
      && IndexFrom(l', '=', 0) == eq && FirstEquals(l, eq) && FirstEquals(l', eq)
  {
    KeyHasEquals(l);
    var eq := IndexFrom(l, '=', 0);
    WriteAfter(l, eq, Quote(v));
    IndexIs(SetValue(l, v), '=', eq);
  }

  lemma SetValueKey(l: Line, v: string)
    requires KeyOf(l).Some?
    ensures KeyOf(SetValue(l, v)) == KeyOf(l)
  {
    SetValueParts(l, v);
    var eq := IndexFrom(l, '=', 0);
    KeyOfPrefix(l, eq);
    KeyOfPrefix(SetValue(l, v), eq);
  }

  lemma TrimLeadingBlank(q: string)
    requires q != [] && !IsSpace(q[0]) && !IsSpace(q[|q| - 1])
    ensures TrimSpace(" " + q) == q
  {
    TrimUpTo(" " + q, 1, |q|);
    assert (" " + q)[1..] == q;
  }

  lemma ReadWhole(t: string, eq: nat, q: string)
    requires FirstEquals(t, eq) && t[eq + 1..] == " " + q
    requires q != [] && !IsSpace(q[0]) && !IsSpace(q[|q| - 1])
    ensures ReadValue(t) == ValueOf(CutComment(q))
  {
    IndexIs(t, '=', eq);
    TrimLeadingBlank(q);
  }

  lemma TrimmedTail(l: Line, eq: nat)
    requires FirstEquals(l, eq) && !IsSpace(l[|l| - 1])
    ensures var n := eq - Indent(l[..eq]);
      FirstEquals(TrimSpace(l), n) && TrimSpace(l)[n + 1..] == l[eq + 1..]
  {
    TrimmedEquals(l, eq);
    var p := l[..eq];
    var i := Indent(p);
    IndentMeaning(p);
    assert forall k :: 0 <= k < i ==> IsSpace(p[k]) && l[k] == p[k];
    assert i < eq ==> l[i] == p[i];
    TrimUpTo(l, i, |l| - 1);
  }

  lemma QuotedValue(v: string)
    ensures ValueOf(CutComment(Quote(v))) == if HasHash(v) then None else Some(v)
  {
    var q := Quote(v);
    QuoteHash(v);
    UnquoteQuote(v);
    if HasHash(v) {
      assert q[0] == '"';
      CutIsNoValue(v, HashIndex(q, 0));
    }
  }

  /** A value written into the line is read back, unless the comment cut takes it. */
  lemma SetValueRead(l: Line, v: string)
    requires KeyOf(l).Some?
    ensures ReadValue(TrimSpace(SetValue(l, v))) == if HasHash(v) then None else Some(v)
  {
    SetValueReads(l, v);
    QuotedValue(v);
  }

  /** A line that assigns q is read as q. */
  lemma ReadsTail(l: Line, eq: nat, q: string)
    requires FirstEquals(l, eq) && l[eq + 1..] == " " + q
    requires q != [] && !IsSpace(q[0]) && !IsSpace(q[|q| - 1])
    ensures ReadValue(TrimSpace(l)) == ValueOf(CutComment(q))
  {
    assert l[|l| - 1] == l[eq + 1..][|q|] == q[|q| - 1];
    TrimmedTail(l, eq);
    ReadWhole(TrimSpace(l), eq - Indent(l[..eq]), q);
  }

  lemma SetValueReads(l: Line, v: string)
    requires KeyOf(l).Some?
    ensures ReadValue(TrimSpace(SetValue(l, v))) == ValueOf(CutComment(Quote(v)))
  {
    SetValueParts(l, v);
    QuoteEnds(v);
    ReadsTail(SetValue(l, v), IndexFrom(l, '=', 0), Quote(v));
  }

  lemma QuoteEnds(v: string)
    ensures Quote(v) != [] && !IsSpace(Quote(v)[0]) && !IsSpace(Quote(v)[|Quote(v)| - 1])
  {}

  lemma CutIsNoValue(v: string, h: nat)
    requires 0 < h < |Quote(v)|
    ensures ValueOf(TrimSpace(Quote(v)[..h])) == None
  {
    var q := Quote(v);
    var cut := TrimSpace(q[..h]);
    assert q[0] == '"' && !IsSpace('"') && q[..h][0] == '"';
    assert Indent(q[..h]) == 0 && q[..h][0..] == q[..h];
    TrimRightMeaning(q[..h]);
    if |cut| >= 2 {
      PrefixTail(cut, h, q, QuoteBody(v) + "\"");
      UnquotePrefix(v, cut[1..]);
    }
  }

  lemma PrefixTail(cut: string, h: nat, q: string, rest: string)
    requires q == "\"" + rest && h <= |q| && 1 <= |cut| && cut <= q[..h]
    ensures cut[0] == '"' && |cut| - 1 <= |rest| && cut[1..] == rest[..|cut| - 1]
  {
    assert cut == q[..h][..|cut|] == q[..|cut|];
    assert q[1..] == rest;
  }

  // ---- scanning the written line ----

  lemma SkipOver(l: Line, i: nat, k: nat)
    requires i <= k <= |l|
    requires forall j :: i <= j < k ==> l[j] != '"' && l[j] != '\\'
    ensures SkipString(l, i, '"', true) == SkipString(l, k, '"', true)
    decreases k - i
  {
    if i < k {
      SkipOver(l, i + 1, k);
    }
  }

  lemma QuoteCharShape(c: char)
    ensures var q := QuoteChar(c);
      && q != []
      && (|q| == 1 ==> q[0] != '"' && q[0] != '\\')
      && (|q| > 1 ==> q[0] == '\\' && forall j :: 2 <= j < |q| ==> q[j] != '"' && q[j] != '\\')
      && q[0] != '"'
  {
    HexIsPlain(c as int, 2);
    HexIsPlain(c as int, 4);
    HexIsPlain(c as int, 8);
    var q := QuoteChar(c);
    assert |q| > 2 ==> forall j :: 2 <= j < |q| ==> q[j] in q[2..];
  }

  lemma {:induction false} SkipQuoted(l: Line, i: nat, v: string)
    requires i <= |l| && l[i..] == QuoteBody(v) + "\""
    ensures SkipString(l, i, '"', true) == |l|
    decreases |v|
  {
    if v == [] {
      assert l[i] == l[i..][0] == '"';
    } else {
      var q, rest := QuoteChar(v[0]), QuoteBody(v[1..]) + "\"";
      assert l[i..] == q + rest;
      QuoteCharShape(v[0]);
      var k := i + |q|;
      assert forall j :: 0 <= j < |q| ==> l[i + j] == l[i..][j] == q[j];
      assert l[k..] == l[i..][|q|..] == rest;
      SkipOver(l, if |q| == 1 then i else i + 2, k);
      SkipQuoted(l, k, v[1..]);
    }
  }

  predicate Inert(c: char) {
    c != '"' && c != '\'' && c != '#' && c != '[' && c != ']'
  }

  predicate InString(st: ScanState) {
    st.inTripleDouble || st.inTripleSingle
  }

  lemma {:induction false} SkipInert(st: ScanState, l: Line, i: nat, k: nat)
    requires i <= k <= |l| && !InString(st)
    requires forall j :: i <= j < k ==> Inert(l[j])
    ensures Advance(st, l, i) == Advance(st, l, k)
    decreases k - i
  {
    if i < k {
      SkipInert(st, l, i + 1, k);
    }
  }

  /** A quoted string at the end of a line leaves the state as it was. */
  lemma NoEmptyTriple(l: Line, i: nat, v: string)
    requires i <= |l| && l[i..] == Quote(v)
    ensures !TripleAt(l, i, '"') && !TripleAt(l, i, '\'')
  {
    assert l[i] == l[i..][0] == '"';
    if v != [] {
      QuoteCharShape(v[0]);
      assert l[i + 1] == l[i..][1] == QuoteChar(v[0])[0];
    } else {
      assert |l| == i + 2;
    }
  }

  lemma QuotedTail(st: ScanState, l: Line, i: nat, v: string)
    requires i <= |l| && l[i..] == Quote(v) && !InString(st)
    requires forall j :: 0 <= j < i ==> Inert(l[j])
    ensures Advance(st, l, 0) == st
  {
    SkipInert(st, l, 0, i);
    NoEmptyTriple(l, i, v);
    assert l[i] == l[i..][0] == '"';
    assert l[i + 1..] == l[i..][1..] == QuoteBody(v) + "\"";
    SkipQuoted(l, i + 1, v);
  }

  lemma {:induction false} TrimRightRest(s: string)
    ensures forall j :: |TrimRight(s)| <= j < |s| ==> IsSpace(s[j])
  {
    if s != [] && IsSpace(s[|s| - 1]) {
      TrimRightRest(s[..|s| - 1]);
    }
  }

  lemma InertPrefix(p: string, key: string)
    requires key == TrimSpace(p) && forall j :: 0 <= j < |key| ==> Inert(key[j])
    ensures forall j :: 0 <= j < |p| ==> Inert(p[j])
  {
    var i := Indent(p);
    IndentMeaning(p);
    TrimRightMeaning(p[i..]);
    TrimRightRest(p[i..]);
    forall j | 0 <= j < |p|
      ensures Inert(p[j])
    {
      if i <= j && j - i < |key| {
        assert p[j] == p[i..][j - i] == key[j - i];
      } else if i <= j {
        assert p[j] == p[i..][j - i];
      }
    }
  }

  /** Before its `=`, a line that assigns a managed key holds nothing but that
      key and white space. */
  lemma ManagedPrefix(l: Line, eq: nat)
    requires ManagedKey(l) && eq == IndexFrom(l, '=', 0)
    ensures FirstEquals(l, eq) && Indent(l[..eq]) < eq
    ensures forall j :: 0 <= j < eq ==> Inert(l[j])
  {
    KeyHasEquals(l);
    KeyOfPrefix(l, eq);
    var p := l[..eq];
    var i := Indent(p);
    IndentMeaning(p);
    ManagedKeysAreInert(KeyOf(l).value);
    InertPrefix(p[i..], KeyOf(l).value);
    forall j | 0 <= j < eq
      ensures Inert(l[j])
    {
      assert l[j] == p[j];
      if j >= i {
        assert p[j] == p[i..][j - i];
      }
    }
  }

  lemma ManagedKeysAreInert(key: string)
    requires key in MANAGED_KEYS
    ensures forall j :: 0 <= j < |key| ==> Inert(key[j])
  {}

  /** A line that starts with anything but a bracket is no header. */
  lemma NotAHeader(l: Line, i: nat)
    requires i < |l| && l[i] != '[' && !IsSpace(l[i]) && forall k :: 0 <= k < i ==> IsSpace(l[k])
    ensures Shape(l).None?
  {
    TrimUpTo(l, i, i);
    assert TrimSpace(l)[0] == l[i..][0];
  }

  lemma ManagedLineIsNoHeader(l: Line)
    requires ManagedKey(l)
    ensures Shape(l).None?
  {
    KeyHasEquals(l);
    var eq := IndexFrom(l, '=', 0);
    ManagedPrefix(l, eq);
    var p := l[..eq];
    var i := Indent(p);
    IndentMeaning(p);
    assert l[i] == p[i] && forall k :: 0 <= k < i ==> l[k] == p[k];
    NotAHeader(l, i);
  }

  lemma SetValueManaged(l: Line, v: string)
    requires ManagedKey(l)
    ensures ManagedKey(SetValue(l, v))
  {
    SetValueKey(l, v);
  }

  /** An assignment of a quoted string to a managed key closes on its own line. */
  lemma QuotedLineCloses(l: Line, eq: nat, v: string)
    requires ManagedKey(l) && eq == IndexFrom(l, '=', 0)
    requires eq + 2 <= |l| && l[eq + 1] == ' ' && l[eq + 2..] == Quote(v)
    ensures Advance(FRESH, l, 0) == FRESH
  {
    ManagedPrefix(l, eq);
    AssignmentCloses(l, eq, v);
  }

  lemma AssignmentCloses(l: Line, eq: nat, v: string)
    requires eq + 2 <= |l| && l[eq] == '=' && l[eq + 1] == ' ' && l[eq + 2..] == Quote(v)
    requires forall j :: 0 <= j < eq ==> Inert(l[j])
    ensures Advance(FRESH, l, 0) == FRESH
  {
    assert Inert('=') && Inert(' ');
    QuotedTail(FRESH, l, eq + 2, v);
  }

  /** Whatever value is written, the line stays a one-line managed assignment. */
  lemma SetValueRootLine(l: Line, v: string)
    requires ManagedKey(l)
    ensures RootLine(SetValue(l, v))
  {
    SetValueParts(l, v);
    SetValueManaged(l, v);
    QuotedLineCloses(SetValue(l, v), IndexFrom(l, '=', 0), v);
    ManagedLineIsNoHeader(SetValue(l, v));
  }
}
