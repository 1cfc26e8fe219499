/** The line scanner of config.toml (go/internal/creds/codextoml.go):
    the character-level state machine, header recognition, and the two-pass
    classification of physical lines. */
module TomlScan {
  import opened Text

  /** What the scanner carries from one line to the next. */
  datatype ScanState = ScanState(inTripleDouble: bool, inTripleSingle: bool, depth: nat) {
    predicate Fresh() {
      !inTripleDouble && !inTripleSingle && depth == 0
    }
  }

  const FRESH: ScanState := ScanState(false, false, 0)

  /** One classified physical line. */
  datatype TomlLine = TomlLine(text: Line, isHeader: bool, header: string, continuation: bool)

  // ---- characters ----

  /** The index just past the closing quote of a single-line string, or the end. */
  function SkipString(line: Line, i: nat, quote: char, escapes: bool): (r: nat)
    requires i <= |line|
    ensures i <= r <= |line|
    decreases |line| - i
  {
    if i == |line| then i
    else if escapes && line[i] == '\\' && i + 1 < |line| then SkipString(line, i + 2, quote, escapes)
    else if line[i] == quote then i + 1
    else SkipString(line, i + 1, quote, escapes)
  }

  /** The state after scanning line from character i on. */
  function Advance(st: ScanState, line: Line, i: nat): ScanState
    requires i <= |line|
    decreases |line| - i
  {
    if i == |line| then st
    else if st.inTripleDouble then
      if TripleAt(line, i, '\"') then Advance(st.(inTripleDouble := false), line, i + 3)
      else Advance(st, line, i + 1)
    else if st.inTripleSingle then
      if TripleAt(line, i, '\'') then Advance(st.(inTripleSingle := false), line, i + 3)
      else Advance(st, line, i + 1)
    else if TripleAt(line, i, '\"') then Advance(st.(inTripleDouble := true), line, i + 3)
    else if TripleAt(line, i, '\'') then Advance(st.(inTripleSingle := true), line, i + 3)
    else if line[i] == '"' then Advance(st, line, SkipString(line, i + 1, '"', true))
    else if line[i] == '\'' then Advance(st, line, SkipString(line, i + 1, '\'', false))
    else if line[i] == '#' then st
    else if line[i] == '[' then Advance(st.(depth := st.depth + 1), line, i + 1)
    else if line[i] == ']' then Advance(if st.depth > 0 then st.(depth := st.depth - 1) else st, line, i + 1)
    else Advance(st, line, i + 1)
  }

  /** The first `]` outside quotes at or after i, or the length. */
  function CloseIndex(s: string, i: nat): (k: nat)
    requires i <= |s|
    ensures i <= k <= |s|
    decreases |s| - i
  {
    if i == |s| then i
    else if s[i] == '"' then CloseIndex(s, SkipString(s, i + 1, '"', true))
    else if s[i] == '\'' then CloseIndex(s, SkipString(s, i + 1, '\'', false))
    else if s[i] == ']' then i
    else CloseIndex(s, i + 1)
  }

  /** The name inside `[name]` or `[[name]]`, when trimmed is such a header. */
  function HeaderName(trimmed: string): Option<string> {
    if trimmed == [] || trimmed[0] != '[' then None
    else
      var double := |trimmed| > 1 && trimmed[1] == '[';
      var start := if double then 2 else 1;
      var close := CloseIndex(trimmed, start);
      if close == |trimmed| then None else NameBetween(trimmed, double, start, close)
  }

  function NameBetween(trimmed: string, double: bool, start: nat, close: nat): Option<string>
    requires start <= close < |trimmed|
  {
    var name := TrimSpace(trimmed[start..close]);
    if name == [] then None
    else if double && (close + 1 == |trimmed| || trimmed[close + 1] != ']') then None
    else if EndsHeader(TrimSpace(trimmed[if double then close + 2 else close + 1..])) then Some(name)
    else None
  }

  predicate EndsHeader(tail: string) {
    tail == [] || tail[0] == '#'
  }

  /** The table a line would open if it were judged on its text alone. */
  function Shape(l: Line): Option<string> {
    HeaderName(TrimSpace(l))
  }

  // ---- lines ----

  function ClassifyLine(st: ScanState, l: Line, recover: bool): TomlLine {
    var h := if st.Fresh() || recover then Shape(l) else None;
    TomlLine(l, h.Some?, if h.Some? then h.value else "", h.None? && !st.Fresh())
  }

  function NextState(st: ScanState, l: Line, recover: bool): ScanState {
    if (st.Fresh() || recover) && Shape(l).Some? then FRESH else Advance(st, l, 0)
  }

  function Classify(st: ScanState, ls: seq<Line>, recover: bool): (cs: seq<TomlLine>)
    ensures |cs| == |ls|
    ensures forall i :: 0 <= i < |ls| ==> cs[i].text == ls[i]
    decreases |ls|
  {
    if ls == [] then []
    else [ClassifyLine(st, ls[0], recover)] + Classify(NextState(st, ls[0], recover), ls[1..], recover)
  }

  lemma ClassifyFirst(st: ScanState, ls: seq<Line>, recover: bool)
    requires ls != []
    ensures Classify(st, ls, recover)
            == [ClassifyLine(st, ls[0], recover)] + Classify(NextState(st, ls[0], recover), ls[1..], recover)
    ensures EndState(st, ls, recover) == EndState(NextState(st, ls[0], recover), ls[1..], recover)
  {}

  lemma {:induction false} EndStateConcat(st: ScanState, a: seq<Line>, b: seq<Line>, recover: bool)
    ensures EndState(st, a + b, recover) == EndState(EndState(st, a, recover), b, recover)
    decreases |a|
  {
    if a == [] {
      assert a + b == b;
    } else {
      assert (a + b)[1..] == a[1..] + b;
      EndStateConcat(NextState(st, a[0], recover), a[1..], b, recover);
    }
  }

  lemma {:induction false} ClassesConcat(st: ScanState, a: seq<Line>, b: seq<Line>, recover: bool)
    ensures Classify(st, a + b, recover) == Classify(st, a, recover) + Classify(EndState(st, a, recover), b, recover)
    decreases |a|
  {
    if a == [] {
      assert a + b == b;
    } else {
      assert (a + b)[1..] == a[1..] + b;
      ClassesConcat(NextState(st, a[0], recover), a[1..], b, recover);
    }
  }

  lemma ClassifyConcat(st: ScanState, a: seq<Line>, b: seq<Line>, recover: bool)
    ensures Classify(st, a + b, recover) == Classify(st, a, recover) + Classify(EndState(st, a, recover), b, recover)
    ensures EndState(st, a + b, recover) == EndState(EndState(st, a, recover), b, recover)
  {
    EndStateConcat(st, a, b, recover);
    ClassesConcat(st, a, b, recover);
  }

  lemma ClassifiedIn(st: ScanState, ls: seq<Line>, recover: bool, i: nat)
    requires i < |ls|
    ensures Classify(st, ls, recover)[i] == ClassifyLine(EndState(st, ls[..i], recover), ls[i], recover)
  {
    assert ls == ls[..i] + ls[i..];
    ClassesConcat(st, ls[..i], ls[i..], recover);
    ClassifyFirst(EndState(st, ls[..i], recover), ls[i..], recover);
  }

  lemma HeaderShape(st: ScanState, ls: seq<Line>, recover: bool, i: nat)
    requires i < |ls| && Classify(st, ls, recover)[i].isHeader
    ensures Shape(ls[i]) == Some(Classify(st, ls, recover)[i].header)
  {
    ClassifiedIn(st, ls, recover, i);
    LineShape(EndState(st, ls[..i], recover), ls[i], recover);
  }

  lemma LineShape(st: ScanState, l: Line, recover: bool)
    requires ClassifyLine(st, l, recover).isHeader
    ensures Shape(l) == Some(ClassifyLine(st, l, recover).header)
  {}

  function EndState(st: ScanState, ls: seq<Line>, recover: bool): ScanState
    decreases |ls|
  {
    if ls == [] then st else EndState(NextState(st, ls[0], recover), ls[1..], recover)
  }

  /** The first pass ends outside every string and array. */
  predicate Closes(ls: seq<Line>) {
    EndState(FRESH, ls, false).Fresh()
  }

  /** scanTomlLines: one plain pass, and a recovering one when that does not close. */
  function Scan(ls: seq<Line>): seq<TomlLine> {
    Classify(FRESH, ls, !Closes(ls))
  }

  function Texts(cs: seq<TomlLine>): (ls: seq<Line>)
    ensures |ls| == |cs|
    ensures forall i :: 0 <= i < |cs| ==> ls[i] == cs[i].text
  {
    seq(|cs|, i requires 0 <= i < |cs| => cs[i].text)
  }

  // ---- the loops ----

  method SkipSingleLineString(line: Line, start: nat, quote: char, escapes: bool) returns (r: nat)
    requires start <= |line|
    ensures r == SkipString(line, start, quote, escapes)
  {
    var i := start;
    while i < |line|
      invariant start <= i <= |line|
      invariant SkipString(line, i, quote, escapes) == SkipString(line, start, quote, escapes)
    {
      if escapes && line[i] == '\\' && i + 1 < |line| {
        i := i + 2;
        continue;
      }
      if line[i] == quote {
        return i + 1;
      }
      i := i + 1;
    }
    return |line|;
  }

  method AdvanceTomlScanState(entering: ScanState, line: Line) returns (st: ScanState)
    ensures st == Advance(entering, line, 0)
  {
    st := entering;
    var i := 0;
    while i < |line|
      invariant 0 <= i <= |line|
      invariant Advance(st, line, i) == Advance(entering, line, 0)
    {
      if st.inTripleDouble {
        if TripleAt(line, i, '\"') {
          st := st.(inTripleDouble := false);
          i := i + 3;
          continue;
        }
        i := i + 1;
        continue;
      }
      if st.inTripleSingle {
        if TripleAt(line, i, '\'') {
          st := st.(inTripleSingle := false);
          i := i + 3;
          continue;
        }
        i := i + 1;
        continue;
      }
      if TripleAt(line, i, '\"') {
        st := st.(inTripleDouble := true);
        i := i + 3;
      } else if TripleAt(line, i, '\'') {
        st := st.(inTripleSingle := true);
        i := i + 3;
      } else if line[i] == '"' {
        i := SkipSingleLineString(line, i + 1, '"', true);
      } else if line[i] == '\'' {
        i := SkipSingleLineString(line, i + 1, '\'', false);
      } else if line[i] == '#' {
        return;
      } else if line[i] == '[' {
        st := st.(depth := st.depth + 1);
        i := i + 1;
      } else if line[i] == ']' {
        if st.depth > 0 {
          st := st.(depth := st.depth - 1);
        }
        i := i + 1;
      } else {
        i := i + 1;
      }
    }
  }

  /** The loop that looks for the closing bracket. */
  method FindClose(trimmed: string, nameStart: nat) returns (i: nat)
    requires nameStart <= |trimmed|
    ensures i == CloseIndex(trimmed, nameStart)
  {
    i := nameStart;
    while i < |trimmed| && trimmed[i] != ']'
      invariant nameStart <= i <= |trimmed|
      invariant CloseIndex(trimmed, i) == CloseIndex(trimmed, nameStart)
    {
      if trimmed[i] == '"' {
        i := SkipSingleLineString(trimmed, i + 1, '"', true);
      } else if trimmed[i] == '\'' {
        i := SkipSingleLineString(trimmed, i + 1, '\'', false);
      } else {
        i := i + 1;
      }
    }
  }

  method MatchTomlHeader(trimmed: string) returns (name: string, ok: bool)
    ensures ok == HeaderName(trimmed).Some?
    ensures name == if ok then HeaderName(trimmed).value else ""
  {
    if |trimmed| == 0 || trimmed[0] != '[' {
      return "", false;
    }
    var i := 1;
    var double := false;
    if i < |trimmed| && trimmed[i] == '[' {
      double := true;
      i := i + 1;
    }
    var nameStart := i;
    i := FindClose(trimmed, nameStart);
    if i == |trimmed| {
      return "", false;
    }
    name, ok := HeaderTail(trimmed, double, nameStart, i);
  }

  method HeaderTail(trimmed: string, double: bool, nameStart: nat, close: nat) returns (name: string, ok: bool)
    requires nameStart <= close < |trimmed|
    ensures ok == NameBetween(trimmed, double, nameStart, close).Some?
    ensures name == if ok then NameBetween(trimmed, double, nameStart, close).value else ""
  {
    name := TrimSpace(trimmed[nameStart..close]);
    if name == "" {
      return "", false;
    }
    var after := close + 1;
    if double {
      if after >= |trimmed| || trimmed[after] != ']' {
        return "", false;
      }
      after := after + 1;
    }
    var tail := TrimSpace(trimmed[after..]);
    if !EndsHeader(tail) {
      return "", false;
    }
    return name, true;
  }

  lemma AppendOne<T>(a: seq<T>, x: T, b: seq<T>)
    ensures a + ([x] + b) == a + [x] + b
  {}

  lemma ClassifyAppend(a: seq<TomlLine>, st: ScanState, ls: seq<Line>, k: nat, recover: bool)
    requires k < |ls|
    ensures a + Classify(st, ls[k..], recover)
            == a + [ClassifyLine(st, ls[k], recover)] + Classify(NextState(st, ls[k], recover), ls[k + 1..], recover)
    ensures EndState(st, ls[k..], recover) == EndState(NextState(st, ls[k], recover), ls[k + 1..], recover)
  {
    assert ls[k..][1..] == ls[k + 1..] && ls[k..][0] == ls[k];
    ClassifyFirst(st, ls[k..], recover);
    AppendOne(a, ClassifyLine(st, ls[k], recover), Classify(NextState(st, ls[k], recover), ls[k + 1..], recover));
  }

  method ClassifyTomlLines(rawLines: seq<Line>, recoverUnterminated: bool)
    returns (lines: seq<TomlLine>, st: ScanState)
    ensures lines == Classify(FRESH, rawLines, recoverUnterminated)
    ensures st == EndState(FRESH, rawLines, recoverUnterminated)
  {
    lines := [];
    st := FRESH;
    for k := 0 to |rawLines|
      invariant lines + Classify(st, rawLines[k..], recoverUnterminated)
                == Classify(FRESH, rawLines, recoverUnterminated)
      invariant EndState(st, rawLines[k..], recoverUnterminated)
                == EndState(FRESH, rawLines, recoverUnterminated)
    {
      var line := rawLines[k];
      var entering := st;
      var isHeader, header := false, "";
      if entering.Fresh() || recoverUnterminated {
        header, isHeader := MatchTomlHeader(TrimSpace(line));
      }
      if isHeader {
        st := FRESH;
      } else {
        st := AdvanceTomlScanState(st, line);
      }
      ClassifyAppend(lines, entering, rawLines, k, recoverUnterminated);
      lines := lines + [TomlLine(line, isHeader, header, !isHeader && !entering.Fresh())];
    }
  }

  /** ok is false when a line does not fit into the line scanner's buffer. */
  method ScanTomlLines(src: string) returns (lines: seq<TomlLine>, ok: bool)
    ensures ok == Scannable(src) && (ok ==> lines == Scan(Lines(src)))
  {
    ok := Scannable(src);
    if !ok {
      return [], false;
    }
    var rawLines := Lines(src);
    var end;
    lines, end := ClassifyTomlLines(rawLines, false);
    if !end.Fresh() {
      lines, end := ClassifyTomlLines(rawLines, true);
    }
  }

  // ---- facts about one line ----

  lemma {:induction false} SkipSpaces(st: ScanState, line: Line, i: nat, k: nat)
    requires i <= k <= |line|
    requires forall j :: i <= j < k ==> IsSpace(line[j])
    ensures Advance(st, line, i) == Advance(st, line, k)
    decreases k - i
  {
    if i < k {
      SkipSpaces(st, line, i + 1, k);
    }
  }

  ghost predicate HasTriple(l: Line) {
    exists i: nat :: TripleAt(l, i, '\"') || TripleAt(l, i, '\'')
  }

  lemma {:induction false} StaysInString(st: ScanState, line: Line, i: nat)
    requires i <= |line| && !HasTriple(line)
    requires st.inTripleDouble || st.inTripleSingle
    ensures Advance(st, line, i) == st
    decreases |line| - i
  {
    if i < |line| {
      StaysInString(st, line, i + 1);
    }
  }

  lemma BlankKeepsState(st: ScanState, l: Line)
    requires Blank(l)
    ensures Shape(l).None? && Advance(st, l, 0) == st
  {
    IndentMeaning(l);
    TrimmedStart(l);
    SkipSpaces(st, l, 0, |l|);
  }

  /** Outside every value a comment line is no header and changes nothing. */
  lemma CommentInFresh(l: Line)
    requires Comment(l)
    ensures Shape(l).None? && Advance(FRESH, l, 0) == FRESH
  {
    IndentMeaning(l);
    TrimmedStart(l);
    SkipSpaces(FRESH, l, 0, Indent(l));
  }

  lemma CommentKeepsState(st: ScanState, l: Line)
    requires Comment(l) && !HasTriple(l)
    ensures Shape(l).None? && Advance(st, l, 0) == st
  {
    IndentMeaning(l);
    TrimmedStart(l);
    if st.inTripleDouble || st.inTripleSingle {
      StaysInString(st, l, 0);
    } else {
      var k := Indent(l);
      SkipSpaces(st, l, 0, k);
    }
  }
}
