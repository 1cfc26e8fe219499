/** What the scanner makes of a line, told by a grammar of its own: plain characters,
    brackets, comments, and the four kinds of strings. */
module TomlStrings {
  import opened Text
  import opened GoQuote
  import opened TomlScan
  import opened TomlSections
  import opened TomlStrip
  import opened TomlStability
  import opened TomlAssembly
  import opened TomlRedelivery
  import opened TomlModel
  import opened TomlMerge
  import GatewayConfig

  // ---- where a one-line string ends ----

  /** How many backslashes stand right before place k, from place i on. */
  function Backslashes(l: Line, i: nat, k: nat): nat
    requires i <= k <= |l|
    decreases k
  {
    if i < k && l[k - 1] == '\\' then 1 + Backslashes(l, i, k - 1) else 0
  }

  /** The quote at place k ends the string whose content starts at place i, unless an
      odd number of backslashes, where they count, takes its meaning away. */
  predicate Ends(l: Line, i: nat, k: nat, quote: char, escapes: bool)
    requires i <= k < |l|
  {
    l[k] == quote && (escapes ==> Backslashes(l, i, k) % 2 == 0)
  }

  /** No quote from place j up to place k ends the string. */
  predicate RunsOn(l: Line, i: nat, j: nat, k: nat, quote: char, escapes: bool)
    requires i <= j && k <= |l|
  {
    forall m :: j <= m < k ==> !Ends(l, i, m, quote, escapes)
  }

  lemma {:induction false} SkipFrom(l: Line, i: nat, j: nat, quote: char, escapes: bool)
    requires i <= j <= |l| && quote != '\\' && (escapes ==> Backslashes(l, i, j) % 2 == 0)
    ensures var r := SkipString(l, j, quote, escapes);
      || (r == |l| && RunsOn(l, i, j, |l|, quote, escapes))
      || (r > j && RunsOn(l, i, j, r - 1, quote, escapes) && Ends(l, i, r - 1, quote, escapes))
    decreases |l| - j
  {
    if j < |l| {
      if escapes && l[j] == '\\' && j + 1 < |l| {
        assert Backslashes(l, i, j + 1) == Backslashes(l, i, j) + 1;
        SkipFrom(l, i, j + 2, quote, escapes);
      } else if escapes && l[j] == '\\' {
        assert SkipString(l, j + 1, quote, escapes) == |l|;
      } else if l[j] != quote {
        SkipFrom(l, i, j + 1, quote, escapes);
      }
    }
  }

  /** The skip stops just past the first quote that ends the string, or at the end of
      the line when there is none. */
  lemma SkipEnds(l: Line, i: nat, e: nat, quote: char, escapes: bool)
    requires i <= e <= |l| && quote != '\\' && RunsOn(l, i, i, e, quote, escapes)
    requires e < |l| ==> Ends(l, i, e, quote, escapes)
    ensures SkipString(l, i, quote, escapes) == if e < |l| then e + 1 else |l|
  {
    SkipFrom(l, i, i, quote, escapes);
  }

  // ---- the pieces of a line ----

  /** The last two leave a multi-line string open. */
  datatype Piece =
    | Plain(c: char)
    | Open
    | Close
    | Basic(s: string)
    | Literal(s: string)
    | LongBasic(s: string)
    | LongLiteral(s: string)
    | Remark(s: string)
    | BasicLeft(s: string)
    | LiteralLeft(s: string)

  function Triple(q: char): string {
    [q, q, q]
  }

  function Spelled(p: Piece): (t: string)
    ensures t != []
  {
    match p
    case Plain(c) => [c]
    case Open => "["
    case Close => "]"
    case Basic(s) => ['"'] + s + ['"']
    case Literal(s) => ['\''] + s + ['\'']
    case LongBasic(s) => Triple('"') + s + Triple('"')
    case LongLiteral(s) => Triple('\'') + s + Triple('\'')
    case Remark(s) => ['#'] + s
    case BasicLeft(s) => Triple('"') + s
    case LiteralLeft(s) => Triple('\'') + s
  }

  function Written(ps: seq<Piece>): Line {
    if ps == [] then [] else Spelled(ps[0]) + Written(ps[1..])
  }

  /** The content of a one-line string: no quote in it ends it, and the closing one does. */
  predicate Content(s: string, q: char, escapes: bool) {
    RunsOn(s, 0, 0, |s|, q, escapes) && (escapes ==> Backslashes(s, 0, |s|) % 2 == 0)
  }

  /** An empty string is not the start of three quotes. */
  predicate Separate(s: string, q: char, rest: Line) {
    s != [] || rest == [] || rest[0] != q
  }

  /** The content of a multi-line string: the first three quotes in a row are the closing ones. */
  predicate LongContent(s: string, q: char) {
    forall k :: 0 <= k < |s| ==> !TripleAt(s + Triple(q), k, q)
  }

  predicate NoTriple(s: string, q: char) {
    forall k :: 0 <= k < |s| ==> !TripleAt(s, k, q)
  }

  predicate GoodPiece(p: Piece, rest: Line) {
    match p
    case Plain(c) => Inert(c)
    case Open => true
    case Close => true
    case Basic(s) => Content(s, '"', true) && Separate(s, '"', rest)
    case Literal(s) => Content(s, '\'', false) && Separate(s, '\'', rest)
    case LongBasic(s) => LongContent(s, '"')
    case LongLiteral(s) => LongContent(s, '\'')
    case Remark(s) => rest == []
    case BasicLeft(s) => NoTriple(s, '"') && rest == []
    case LiteralLeft(s) => NoTriple(s, '\'') && rest == []
  }

  predicate WellFormed(ps: seq<Piece>) {
    ps == [] || (GoodPiece(ps[0], Written(ps[1..])) && WellFormed(ps[1..]))
  }

  /** What a piece does: only brackets outside strings and comments count, there are
      never fewer than none, and only a multi-line string is left open. */
  function After(st: ScanState, p: Piece): ScanState {
    match p
    case Open => st.(depth := st.depth + 1)
    case Close => if st.depth > 0 then st.(depth := st.depth - 1) else st
    case BasicLeft(_) => st.(inTripleDouble := true)
    case LiteralLeft(_) => st.(inTripleSingle := true)
    case _ => st
  }

  function AfterAll(st: ScanState, ps: seq<Piece>): ScanState
    decreases |ps|
  {
    if ps == [] then st else AfterAll(After(st, ps[0]), ps[1..])
  }

  // ---- one piece ----

  predicate At(l: Line, i: nat, t: string) {
    i + |t| <= |l| && l[i..i + |t|] == t
  }

  lemma CharsAt(l: Line, i: nat, t: string)
    requires At(l, i, t)
    ensures forall k :: 0 <= k < |t| ==> l[i + k] == t[k]
  {
    assert forall k :: 0 <= k < |t| ==> l[i..i + |t|][k] == t[k];
  }

  lemma TripleShift(l: Line, i: nat, t: string, k: nat, q: char)
    requires At(l, i, t) && k + 3 <= |t|
    ensures TripleAt(l, i + k, q) <==> TripleAt(t, k, q)
  {
    CharsAt(l, i, t);
    assert l[i + k] == t[k] && l[i + (k + 1)] == t[k + 1] && l[i + (k + 2)] == t[k + 2];
  }

  lemma {:induction false} BackslashesAt(l: Line, i: nat, t: string, k: nat)
    requires At(l, i, t) && k <= |t|
    ensures Backslashes(l, i, i + k) == Backslashes(t, 0, k)
  {
    if k > 0 {
      CharsAt(l, i, t);
      assert l[i + (k - 1)] == t[k - 1];
      BackslashesAt(l, i, t, k - 1);
    }
  }

  lemma ContentSkipped(l: Line, i: nat, s: string, q: char, escapes: bool)
    requires At(l, i, s) && i + |s| < |l| && l[i + |s|] == q && q != '\\' && Content(s, q, escapes)
    ensures SkipString(l, i, q, escapes) == i + |s| + 1
  {
    CharsAt(l, i, s);
    forall m | i <= m < i + |s|
      ensures !Ends(l, i, m, q, escapes)
    {
      BackslashesAt(l, i, s, m - i);
      assert l[i + (m - i)] == s[m - i] && !Ends(s, 0, m - i, q, escapes);
    }
    BackslashesAt(l, i, s, |s|);
    SkipEnds(l, i, i + |s|, q, escapes);
  }

  /** A one-line string is skipped as a whole, whatever it holds. */
  lemma OneLineString(st: ScanState, l: Line, i: nat, s: string, q: char)
    requires !InString(st) && (q == '"' || q == '\'') && Content(s, q, q == '"')
    requires At(l, i, [q] + s + [q]) && Separate(s, q, l[i + |s| + 2..])
    ensures Advance(st, l, i) == Advance(st, l, i + |s| + 2)
  {
    var t := [q] + s + [q];
    CharsAt(l, i, t);
    assert l[i] == t[0] && l[i + (|s| + 1)] == t[|s| + 1] == q;
    assert At(l, i + 1, s) by {
      assert l[i + 1..i + 1 + |s|] == t[1..1 + |s|] == s;
    }
    ContentSkipped(l, i + 1, s, q, q == '"');
    if s != [] {
      assert l[i + 1] == t[1] == s[0];
      assert !Ends(s, 0, 0, q, q == '"');
    } else if i + 2 < |l| {
      assert l[i + 2] == l[i + 2..][0];
    }
  }

  function Inside(st: ScanState, q: char): ScanState {
    if q == '"' then st.(inTripleDouble := true) else st.(inTripleSingle := true)
  }

  lemma {:induction false} LongFrom(st: ScanState, l: Line, i: nat, e: nat, q: char)
    requires !InString(st) && (q == '"' || q == '\'') && i <= e <= |l|
    requires forall k :: i <= k < e ==> !TripleAt(l, k, q)
    ensures Advance(Inside(st, q), l, i) == Advance(Inside(st, q), l, e)
    decreases e - i
  {
    if i < e {
      LongFrom(st, l, i + 1, e, q);
    }
  }

  lemma LongEnd(st: ScanState, l: Line, e: nat, q: char)
    requires !InString(st) && (q == '"' || q == '\'') && TripleAt(l, e, q)
    ensures Advance(Inside(st, q), l, e) == Advance(st, l, e + 3)
  {}

  lemma LongThrough(st: ScanState, l: Line, i: nat, e: nat, q: char)
    requires !InString(st) && (q == '"' || q == '\'') && i <= e && TripleAt(l, e, q)
    requires forall k :: i <= k < e ==> !TripleAt(l, k, q)
    ensures Advance(Inside(st, q), l, i) == Advance(st, l, e + 3)
  {
    LongFrom(st, l, i, e, q);
    LongEnd(st, l, e, q);
  }

  lemma NoEarlierTriple(l: Line, i: nat, s: string, q: char)
    requires LongContent(s, q) && At(l, i, s + Triple(q))
    ensures TripleAt(l, i + |s|, q) && forall k :: i <= k < i + |s| ==> !TripleAt(l, k, q)
  {
    var t := s + Triple(q);
    assert t[|s|] == t[|s| + 1] == t[|s| + 2] == q;
    TripleShift(l, i, t, |s|, q);
    forall k | i <= k < i + |s|
      ensures !TripleAt(l, k, q)
    {
      TripleShift(l, i, t, k - i, q);
    }
  }

  /** A multi-line string that has been entered ends at its first three quotes. */
  lemma LongString(st: ScanState, l: Line, i: nat, s: string, q: char, e: nat)
    requires !InString(st) && (q == '"' || q == '\'') && LongContent(s, q) && At(l, i, s + Triple(q))
    requires e == i + |s|
    ensures e + 3 <= |l| && Advance(Inside(st, q), l, i) == Advance(st, l, e + 3)
  {
    NoEarlierTriple(l, i, s, q);
    LongThrough(st, l, i, e, q);
  }

  lemma EntersLong(st: ScanState, l: Line, i: nat, q: char)
    requires !InString(st) && (q == '"' || q == '\'') && TripleAt(l, i, q)
    ensures Advance(st, l, i) == Advance(Inside(st, q), l, i + 3)
  {}

  lemma LongPiece(st: ScanState, l: Line, i: nat, s: string, q: char)
    requires !InString(st) && (q == '"' || q == '\'') && LongContent(s, q) && At(l, i, Triple(q) + s + Triple(q))
    ensures Advance(st, l, i) == Advance(st, l, i + |s| + 6)
  {
    var t := Triple(q) + s + Triple(q);
    TripleShift(l, i, t, 0, q);
    EntersLong(st, l, i, q);
    assert l[i + 3..i + 3 + |s + Triple(q)|] == l[i..i + |t|][3..] == s + Triple(q);
    LongString(st, l, i + 3, s, q, i + 3 + |s|);
  }

  lemma LeftPiece(st: ScanState, l: Line, i: nat, s: string, q: char)
    requires !InString(st) && (q == '"' || q == '\'') && NoTriple(s, q)
    requires At(l, i, Triple(q) + s) && i + |s| + 3 == |l|
    ensures Advance(st, l, i) == Inside(st, q)
  {
    var t := Triple(q) + s;
    TripleShift(l, i, t, 0, q);
    EntersLong(st, l, i, q);
    forall k | i + 3 <= k && k + 3 <= |l|
      ensures !TripleAt(l, k, q)
    {
      TripleShift(l, i, t, k - i, q);
      assert !TripleAt(s, k - i - 3, q);
    }
    LongFrom(st, l, i + 3, |l|, q);
  }

  // ---- the line ----

  lemma PieceScanned(st: ScanState, l: Line, i: nat, p: Piece, rest: Line)
    requires !InString(st) && i <= |l| && l[i..] == Spelled(p) + rest && GoodPiece(p, rest)
    ensures i + |Spelled(p)| <= |l| && l[i + |Spelled(p)|..] == rest
    ensures !InString(After(st, p)) ==> Advance(st, l, i) == Advance(After(st, p), l, i + |Spelled(p)|)
    ensures InString(After(st, p)) ==> rest == [] && Advance(st, l, i) == After(st, p)
  {
    var t := Spelled(p);
    assert At(l, i, t) by {
      assert l[i..i + |t|] == l[i..][..|t|];
    }
    assert l[i + |t|..] == l[i..][|t|..];
    CharsAt(l, i, t);
    assert l[i] == l[i + 0] == t[0];
    match p
    case Basic(s) => OneLineString(st, l, i, s, '"');
    case Literal(s) => OneLineString(st, l, i, s, '\'');
    case LongBasic(s) => LongPiece(st, l, i, s, '"');
    case LongLiteral(s) => LongPiece(st, l, i, s, '\'');
    case BasicLeft(s) => LeftPiece(st, l, i, s, '"');
    case LiteralLeft(s) => LeftPiece(st, l, i, s, '\'');
    case _ =>
  }

  /** Outside a multi-line string, a line of well-formed pieces leaves the state that
      the pieces make, one after the other. */
  lemma {:induction false} LineScanned(st: ScanState, l: Line, i: nat, ps: seq<Piece>)
    requires !InString(st) && i <= |l| && l[i..] == Written(ps) && WellFormed(ps)
    ensures Advance(st, l, i) == AfterAll(st, ps)
    decreases |ps|
  {
    if ps != [] {
      var p, rest := ps[0], ps[1..];
      PieceScanned(st, l, i, p, Written(rest));
      if InString(After(st, p)) {
        assert rest == [] || Written(rest) != [];
      } else {
        LineScanned(After(st, p), l, i + |Spelled(p)|, rest);
      }
    }
  }

  /** Inside a multi-line string, the line's first three quotes end it, and pieces follow. */
  lemma LineScannedInside(st: ScanState, l: Line, s: string, q: char, ps: seq<Piece>)
    requires !InString(st) && (q == '"' || q == '\'') && LongContent(s, q)
    requires l == s + Triple(q) + Written(ps) && WellFormed(ps)
    ensures Advance(Inside(st, q), l, 0) == AfterAll(st, ps)
  {
    assert l[0..|s| + 3] == s + Triple(q);
    LongString(st, l, 0, s, q, |s|);
    LineScanned(st, l, |s| + 3, ps);
  }

  /** And without three quotes it goes on. */
  lemma LineInside(st: ScanState, l: Line, q: char)
    requires !InString(st) && (q == '"' || q == '\'') && NoTriple(l, q)
    ensures Advance(Inside(st, q), l, 0) == Inside(st, q)
  {
    LongFrom(st, l, 0, |l|, q);
  }

  // ---- the name of a table ----

  /** Names are plain characters and strings; a string hides the brackets in it. */
  predicate NamePiece(p: Piece) {
    match p
    case Plain(c) => c != '"' && c != '\'' && c != ']'
    case Basic(s) => Content(s, '"', true)
    case Literal(s) => Content(s, '\'', false)
    case _ => false
  }

  predicate NamePieces(ps: seq<Piece>) {
    ps == [] || (NamePiece(ps[0]) && NamePieces(ps[1..]))
  }

  lemma StringInName(l: Line, i: nat, s: string, q: char)
    requires (q == '"' || q == '\'') && Content(s, q, q == '"') && At(l, i, [q] + s + [q])
    ensures CloseIndex(l, i) == CloseIndex(l, i + |s| + 2)
  {
    var t := [q] + s + [q];
    CharsAt(l, i, t);
    assert l[i] == l[i + 0] == t[0] && l[i + (|s| + 1)] == t[|s| + 1] == q;
    assert At(l, i + 1, s) by {
      assert l[i + 1..i + 1 + |s|] == t[1..1 + |s|] == s;
    }
    ContentSkipped(l, i + 1, s, q, q == '"');
  }

  lemma NamePieceScanned(l: Line, i: nat, p: Piece)
    requires NamePiece(p) && At(l, i, Spelled(p))
    ensures CloseIndex(l, i) == CloseIndex(l, i + |Spelled(p)|)
  {
    CharsAt(l, i, Spelled(p));
    assert l[i] == l[i + 0] == Spelled(p)[0];
    match p
    case Basic(s) => StringInName(l, i, s, '"');
    case Literal(s) => StringInName(l, i, s, '\'');
    case Plain(c) =>
  }

  lemma AtParts(l: Line, i: nat, t: string, rest: string)
    requires At(l, i, t + rest)
    ensures At(l, i, t) && At(l, i + |t|, rest)
  {
    assert l[i..i + |t|] == l[i..i + |t + rest|][..|t|];
    assert l[i + |t|..i + |t| + |rest|] == l[i..i + |t + rest|][|t|..];
  }

  lemma NameStep(l: Line, i: nat, p: Piece, rest: string) returns (next: nat)
    requires NamePiece(p) && At(l, i, Spelled(p) + rest)
    ensures next == i + |Spelled(p)| && At(l, next, rest) && CloseIndex(l, i) == CloseIndex(l, next)
  {
    next := i + |Spelled(p)|;
    AtParts(l, i, Spelled(p), rest);
    NamePieceScanned(l, i, p);
  }

  lemma {:induction false} NameScanned(l: Line, i: nat, ps: seq<Piece>, e: nat)
    requires At(l, i, Written(ps)) && e == i + |Written(ps)| && NamePieces(ps)
    ensures CloseIndex(l, i) == CloseIndex(l, e)
    decreases |ps|
  {
    if ps != [] {
      var next := NameStep(l, i, ps[0], Written(ps[1..]));
      NameScanned(l, next, ps[1..], e);
    }
  }

  lemma TailDecides(tail: string)
    ensures EndsHeader(TrimSpace(tail)) <==> Blank(tail) || Comment(tail)
  {
    TrimmedStart(tail);
  }

  lemma BetweenBrackets(t: string, double: bool, start: nat, close: nat, name: string, tail: string)
    requires start <= close < |t| && t[start..close] == name
    requires double ==> close + 2 <= |t| && t[close + 1] == ']'
    requires t[if double then close + 2 else close + 1..] == tail
    ensures NameBetween(t, double, start, close)
      == if TrimSpace(name) != [] && (Blank(tail) || Comment(tail)) then Some(TrimSpace(name)) else None
  {
    TailDecides(tail);
  }

  lemma HeaderAt(trimmed: string, double: bool, name: string, tail: string)
    requires !double && name != [] ==> name[0] != '['
    requires trimmed == (if double then "[[" else "[") + name + (if double then "]]" else "]") + tail
    requires var start := if double then 2 else 1; CloseIndex(trimmed, start) == start + |name|
    ensures HeaderName(trimmed)
      == if TrimSpace(name) != [] && (Blank(tail) || Comment(tail)) then Some(TrimSpace(name)) else None
  {
    var start := if double then 2 else 1;
    var close := start + |name|;
    assert trimmed[start..close] == name && (name != [] ==> trimmed[start] == name[0]);
    assert trimmed[close] == ']' && (double ==> trimmed[close + 1] == ']');
    assert trimmed[if double then close + 2 else close + 1..] == tail;
    BetweenBrackets(trimmed, double, start, close, name, tail);
  }

  /** A header in single or double brackets, with a bare or quoted name that is not blank
      and perhaps a comment, is read as that name; any other tail makes it no header. */
  lemma HeaderRead(trimmed: string, double: bool, ps: seq<Piece>, tail: string)
    requires NamePieces(ps) && (!double && Written(ps) != [] ==> Written(ps)[0] != '[')
    requires trimmed == (if double then "[[" else "[") + Written(ps) + (if double then "]]" else "]") + tail
    ensures HeaderName(trimmed)
      == if TrimSpace(Written(ps)) != [] && (Blank(tail) || Comment(tail)) then Some(TrimSpace(Written(ps))) else None
  {
    NameCloses(trimmed, if double then "[[" else "[", ps, (if double then "]]" else "]") + tail);
    HeaderAt(trimmed, double, Written(ps), tail);
  }

  /** And every header is one of these. */
  lemma HeaderOnly(trimmed: string) returns (double: bool, ps: seq<Piece>, tail: string)
    requires HeaderName(trimmed).Some?
    ensures NamePieces(ps) && (!double && Written(ps) != [] ==> Written(ps)[0] != '[')
    ensures trimmed == (if double then "[[" else "[") + Written(ps) + (if double then "]]" else "]") + tail
  {
    double := |trimmed| > 1 && trimmed[1] == '[';
    var start := if double then 2 else 1;
    var close := HeaderCloses(trimmed, double);
    ps := NameParts(trimmed, start);
    tail := trimmed[close + start..];
    Bracketed(trimmed, double, close, Written(ps), tail);
  }

  lemma HeaderCloses(trimmed: string, double: bool) returns (close: nat)
    requires HeaderName(trimmed).Some? && (double <==> |trimmed| > 1 && trimmed[1] == '[')
    ensures var start := if double then 2 else 1;
      && trimmed[0] == '[' && start <= close && close + start <= |trimmed| && close == CloseIndex(trimmed, start)
      && trimmed[close] == ']' && (double ==> trimmed[close + 1] == ']')
  {
    var start := if double then 2 else 1;
    close := CloseIndex(trimmed, start);
    CloseIsBracket(trimmed, start);
  }

  lemma Bracketed(t: string, double: bool, close: nat, name: string, tail: string)
    requires var n := if double then 2 else 1;
      n <= close && close + n <= |t| && name == t[n..close] && tail == t[close + n..]
    requires t[0] == '[' && t[close] == ']' && (double ==> t[1] == '[' && t[close + 1] == ']')
    ensures t == (if double then "[[" else "[") + name + (if double then "]]" else "]") + tail
  {
    if double {
      assert t[..2] == "[[" && t[close..close + 2] == "]]";
      Around(t, 2, close, close + 2);
    } else {
      assert t[..1] == "[" && t[close..close + 1] == "]";
      Around(t, 1, close, close + 1);
    }
  }

  lemma Around(t: string, i: nat, j: nat, k: nat)
    requires i <= j <= k <= |t|
    ensures t == t[..i] + t[i..j] + t[j..k] + t[k..]
  {}

  lemma {:induction false} CloseIsBracket(l: Line, i: nat)
    requires i <= |l| && CloseIndex(l, i) < |l|
    ensures l[CloseIndex(l, i)] == ']'
    decreases |l| - i
  {
    if l[i] == '"' || l[i] == '\'' {
      CloseIsBracket(l, SkipString(l, i + 1, l[i], l[i] == '"'));
    } else if l[i] != ']' {
      CloseIsBracket(l, i + 1);
    }
  }

  lemma {:induction false} NameParts(l: Line, i: nat) returns (ps: seq<Piece>)
    requires i <= |l| && CloseIndex(l, i) < |l|
    ensures NamePieces(ps) && l[i..CloseIndex(l, i)] == Written(ps)
    decreases |l| - i
  {
    if l[i] == ']' {
      ps := [];
    } else {
      var p, next := FirstPart(l, i);
      var rest := NameParts(l, next);
      ps := [p] + rest;
      PieceCons(FRESH, p, rest);
      assert l[i..CloseIndex(l, i)] == l[i..next] + l[next..CloseIndex(l, next)];
    }
  }

  lemma FirstPart(l: Line, i: nat) returns (p: Piece, next: nat)
    requires i < |l| && CloseIndex(l, i) < |l| && l[i] != ']'
    ensures NamePiece(p) && i < next <= |l| && l[i..next] == Spelled(p) && CloseIndex(l, i) == CloseIndex(l, next)
  {
    if l[i] == '"' || l[i] == '\'' {
      next := SkipString(l, i + 1, l[i], l[i] == '"');
      var s := StringTaken(l, i, next);
      p := if l[i] == '"' then Basic(s) else Literal(s);
    } else {
      p, next := Plain(l[i]), i + 1;
    }
  }

  /** What the scanner skipped as a string is one. */
  lemma StringTaken(l: Line, i: nat, r: nat) returns (s: string)
    requires i < |l| && (l[i] == '"' || l[i] == '\'') && r == SkipString(l, i + 1, l[i], l[i] == '"') && r < |l|
    ensures Content(s, l[i], l[i] == '"') && l[i..r] == [l[i]] + s + [l[i]]
  {
    var q := l[i];
    SkipFrom(l, i + 1, i + 1, q, q == '"');
    s := l[i + 1..r - 1];
    ContentTaken(l, i + 1, r - 1, q, q == '"');
    assert l[r - 1] == q;
  }

  lemma ContentTaken(l: Line, i: nat, e: nat, q: char, escapes: bool)
    requires i <= e < |l| && RunsOn(l, i, i, e, q, escapes) && Ends(l, i, e, q, escapes)
    ensures Content(l[i..e], q, escapes)
  {
    var s := l[i..e];
    CharsAt(l, i, s);
    BackslashesAt(l, i, s, |s|);
    forall m | 0 <= m < |s|
      ensures !Ends(s, 0, m, q, escapes)
    {
      BackslashesAt(l, i, s, m);
      assert !Ends(l, i, i + m, q, escapes) && l[i + m] == s[m];
    }
  }

  lemma NameCloses(l: Line, open: string, ps: seq<Piece>, rest: string)
    requires NamePieces(ps) && l == open + Written(ps) + rest && rest != [] && rest[0] == ']'
    ensures CloseIndex(l, |open|) == |open| + |Written(ps)|
  {
    var e := |open| + |Written(ps)|;
    assert l[|open|..e] == Written(ps) && l[e] == ']';
    NameScanned(l, |open|, ps, e);
  }

  // ---- lines above a managed one ----

  /** A line of the employee's own at the root that opens nothing. */
  predicate OwnLine(l: Line) {
    Shape(l).None? && !Filler(l) && !ManagedKey(l) && Advance(FRESH, l, 0) == FRESH
  }

  lemma {:induction false} OwnLinesScan(ls: seq<Line>, recover: bool)
    requires forall l :: l in ls ==> OwnLine(l)
    ensures EndState(FRESH, ls, recover) == FRESH
    ensures forall i :: 0 <= i < |ls| ==> Classify(FRESH, ls, recover)[i] == TomlLine(ls[i], false, "", false)
    decreases |ls|
  {
    if ls != [] {
      assert ls[0] in ls;
      OwnLinesScan(ls[1..], recover);
    }
  }

  lemma {:induction false} OwnLinesStay(cs: seq<TomlLine>)
    requires forall i :: 0 <= i < |cs| ==> !cs[i].isHeader && !cs[i].continuation && !ManagedKey(cs[i].text)
    ensures Strip(AT_ROOT, cs) == cs && StripAfter(AT_ROOT, cs) == AT_ROOT
    decreases |cs|
  {
    KeepsRoot(cs);
  }

  lemma ScanBelow(ls: seq<Line>, x: Line)
    requires (forall l :: l in ls ==> OwnLine(l)) && RootLine(x)
    ensures Closes(ls + [x]) && Scan(ls + [x]) == Classify(FRESH, ls, false) + [TomlLine(x, false, "", false)]
  {
    OwnLinesScan(ls, false);
    ClassifyConcat(FRESH, ls, [x], false);
    OneStep(FRESH, x, [], false);
    assert [x] + [] == [x];
  }

  lemma ManagedGoes(x: TomlLine)
    requires !x.isHeader && !x.continuation && ManagedKey(x.text)
    ensures Strip(AT_ROOT, [x]) == [] && Lead([x]).None?
  {
    ManagedKeyIsNotFiller(x.text);
    assert [x][1..] == [];
    assert StripStep(AT_ROOT, [x]) == (false, StripState(None, true));
  }

  /** Whatever lines of the employee's that open nothing stand above it, a managed line
      at the root is taken out, and they stay. */
  lemma ManagedBelow(ls: seq<Line>, x: Line)
    requires (forall l :: l in ls ==> OwnLine(l)) && RootLine(x)
    ensures Kept(ls + [x]) == ls
  {
    var cs, c := Classify(FRESH, ls, false), TomlLine(x, false, "", false);
    ScanBelow(ls, x);
    OwnLinesScan(ls, false);
    forall i | 0 <= i < |cs|
      ensures !ManagedKey(cs[i].text)
    {
      assert ls[i] in ls;
    }
    OwnLinesStay(cs);
    ManagedGoes(c);
    StripConcat(AT_ROOT, cs, [c]);
    assert Texts(cs + []) == ls;
  }

  lemma {:induction false} ReadBelow(cs: seq<TomlLine>, c: TomlLine, key: string)
    requires forall i :: 0 <= i < |cs| ==> !cs[i].isHeader && KeyOf(cs[i].text) != Some(key)
    requires !c.isHeader && !c.continuation && KeyOf(c.text) == Some(key) && !Filler(c.text)
    ensures RootString(None, cs + [c], key) == ReadValue(TrimSpace(c.text))
    decreases |cs|
  {
    assert [c][1..] == [] && Lead([c]).None?;
    if cs == [] {
      assert cs + [c] == [c];
    } else {
      assert (cs + [c])[1..] == cs[1..] + [c];
      ReadBelow(cs[1..], c, key);
    }
  }

  /** And the model it names is the employee's choice exactly when it is allowed and not
      empty; a value that cannot be read is none. */
  lemma ModelBelow(ls: seq<Line>, x: Line, allowed: seq<string>)
    requires (forall l :: l in ls ==> OwnLine(l)) && RootLine(x) && KeyOf(x) == Some("model")
    ensures var m := ReadValue(TrimSpace(x));
      KeptModel(ls + [x], allowed) == if m.Some? && m.value != [] && m.value in allowed then m else None
  {
    var cs := Classify(FRESH, ls, false);
    ScanBelow(ls, x);
    OwnLinesScan(ls, false);
    forall i | 0 <= i < |cs|
      ensures KeyOf(cs[i].text) != Some("model")
    {
      assert ls[i] in ls;
      assert "model" in MANAGED_KEYS;
    }
    ManagedKeyIsNotFiller(x);
    ReadBelow(cs, TomlLine(x, false, "", false), "model");
  }

  lemma StartsPlainly(l: Line)
    requires l != [] && l[0] != '[' && l[0] != '#' && !IsSpace(l[0])
    ensures Shape(l).None? && !Filler(l)
  {
    NotAHeader(l, 0);
    TrimUpTo(l, 0, 0);
    assert TrimSpace(l)[0] == l[0..][0];
  }

  lemma KeyBefore(key: string, rest: string)
    requires GatewayConfig.PlainKey(key)
    ensures KeyOf(key + " =" + rest) == Some(key)
  {
    var l := key + " =" + rest;
    var eq := |key| + 1;
    assert l[eq] == '=' && forall k :: 0 <= k < eq ==> l[k] != '=';
    KeyOfPrefix(l, eq);
    var p := l[..eq];
    assert p == key + seq(1, _ => ' ');
    assert p[0] == key[0] && Indent(p) == 0 && p[0..] == p;
    GatewayConfig.TrimRightPadded(key, 1);
  }

  // ---- keys ----

  /** A key that needs no quotes. */
  predicate Bare(key: string) {
    && key != [] && key[0] != '#' && !IsSpace(key[0]) && !IsSpace(key[|key| - 1])
    && forall c :: c in key ==> c !in {' ', '\t', '"', '\'', '[', ']', '='}
  }

  predicate AllSpace(s: string) {
    forall c :: c in s ==> IsSpace(c)
  }

  lemma {:induction false} IndentOver(pre: string, s: string)
    requires AllSpace(pre) && s != [] && !IsSpace(s[0])
    ensures Indent(pre + s) == |pre| && (pre + s)[|pre|..] == s
  {
    if pre == [] {
      assert pre + s == s;
    } else {
      assert (pre + s)[0] == pre[0] && (pre + s)[1..] == pre[1..] + s;
      IndentOver(pre[1..], s);
    }
  }

  lemma {:induction false} TrimRightOver(s: string, post: string)
    requires AllSpace(post) && s != [] && !IsSpace(s[|s| - 1])
    ensures TrimRight(s + post) == s
    decreases |post|
  {
    if post == [] {
      assert s + post == s;
    } else {
      assert (s + post)[|s + post| - 1] == post[|post| - 1];
      assert (s + post)[..|s + post| - 1] == s + post[..|post| - 1];
      TrimRightOver(s, post[..|post| - 1]);
    }
  }

  /** A bare key before the first equals sign is read, whatever blanks stand around it. */
  lemma KeyRead(pre: string, key: string, mid: string, rest: string)
    requires AllSpace(pre) && Bare(key) && AllSpace(mid)
    ensures KeyOf(pre + (key + mid) + "=" + rest) == Some(key)
  {
    var l, p := pre + (key + mid) + "=" + rest, pre + (key + mid);
    assert l[..|p|] == p && l[|p|] == '=';
    forall k | 0 <= k < |p|
      ensures l[k] != '='
    {
      assert l[k] == p[k] && p[k] in p;
      assert forall c :: c in p ==> c in pre || c in key || c in mid;
    }
    KeyOfPrefix(l, |p|);
    IndentOver(pre, key + mid);
    TrimsTo(key, mid);
  }

  lemma TrimsTo(key: string, mid: string)
    requires Bare(key) && AllSpace(mid)
    ensures KeyName(key + mid) == Some(key)
  {
    IndentOver([], key + mid);
    assert [] + (key + mid) == key + mid;
    TrimRightOver(key, mid);
    assert forall i :: 0 <= i < |key| ==> key[i] in key;
  }

  /** And nothing else is read as a key. */
  lemma KeyOnly(l: Line) returns (pre: string, mid: string, rest: string)
    requires KeyOf(l).Some?
    ensures AllSpace(pre) && Bare(KeyOf(l).value) && AllSpace(mid)
    ensures l == pre + (KeyOf(l).value + mid) + "=" + rest
  {
    KeyHasEquals(l);
    var eq := IndexFrom(l, '=', 0);
    KeyOfPrefix(l, eq);
    var p := l[..eq];
    var n := Indent(p);
    IndentMeaning(p);
    pre, rest := p[..n], l[eq + 1..];
    mid := NameInside(p[n..]);
    assert p == p[..n] + p[n..];
    assert l == p + ("=" + rest);
  }

  lemma NameInside(p: string) returns (mid: string)
    requires p != [] && !IsSpace(p[0]) && p[0] != '#' && '=' !in p && KeyName(p).Some?
    ensures Bare(KeyName(p).value) && AllSpace(mid) && p == KeyName(p).value + mid
  {
    var key := TrimSpace(p);
    assert Indent(p) == 0 && p[0..] == p;
    TrimRightMeaning(p);
    TrimRightSpaces(p);
    mid := p[|key|..];
    assert forall c :: c in key ==> c in p;
  }

  lemma {:induction false} TrimRightSpaces(s: string)
    ensures TrimRight(s) <= s && AllSpace(s[|TrimRight(s)|..])
  {
    if s != [] && IsSpace(s[|s| - 1]) {
      var init := s[..|s| - 1];
      TrimRightSpaces(init);
      assert s[|TrimRight(s)|..] == init[|TrimRight(s)|..] + [s[|s| - 1]];
    }
  }

  // ---- values ----

  lemma ShortCut(m: string, h: nat)
    requires '\'' !in m && 0 < h <= |m|
    ensures ValueOf(TrimSpace((['\''] + m)[..h])) == None
  {
    var q := (['\''] + m)[..h];
    var cut := TrimSpace(q);
    assert q[0] == '\'' && Indent(q) == 0 && q[0..] == q;
    TrimRightMeaning(q);
    if |cut| >= 2 {
      assert cut[0] == q[0] && cut[|cut| - 1] == q[|cut| - 1] == m[|cut| - 2] && m[|cut| - 2] in m;
    }
  }

  /** A value in single quotes is read as it stands, unless the comment cut takes it. */
  lemma LiteralValue(m: string)
    requires '\'' !in m
    ensures ValueOf(CutComment(['\''] + m + ['\''])) == if HasHash(m) then None else Some(m)
  {
    var q := ['\''] + m + ['\''];
    if HasHash(m) {
      LiteralIsCut(m);
    } else {
      assert forall k :: 0 <= k < |m| ==> q[k + 1] == m[k];
      assert q[1..|q| - 1] == m;
    }
  }

  lemma LiteralIsCut(m: string)
    requires '\'' !in m && HasHash(m)
    ensures ValueOf(CutComment(['\''] + m + ['\''])) == None
  {
    var h := HashInLiteral(m);
    assert (['\''] + m + ['\''])[..h] == (['\''] + m)[..h];
    ShortCut(m, h);
  }

  lemma HashInLiteral(m: string) returns (h: nat)
    requires HasHash(m)
    ensures 0 < h <= |m| && h == HashIndex(['\''] + m + ['\''], 0)
  {
    var q, k := ['\''] + m + ['\''], HashIndex(m, 0);
    assert q[k + 1] == m[k] && q[k + 2] == m[k + 1];
    HasHashAt(q, k + 1);
    h := HashIndex(q, 0);
    assert q[0] == '\'' && q[|q| - 1] == '\'';
  }

  /** A comment after a value is cut off. */
  lemma CommentCut(q: string, comment: string)
    requires q != [] && !HasHash(q) && !IsSpace(q[0]) && !IsSpace(q[|q| - 1])
    requires comment != [] && comment[0] == '#'
    ensures CutComment(q + [' '] + comment) == q
  {
    var whole := q + [' '] + comment;
    assert whole[|q|] == ' ' && whole[|q| + 1] == '#';
    HasHashAt(whole, |q|);
    var h := HashIndex(whole, 0);
    assert h == |q|;
    assert whole[..h] == q && Indent(q) == 0 && q[0..] == q;
    TrimRightMeaning(q);
  }

  /** A root assignment in either quoting, with a comment or without. */
  lemma ValueRead(l: Line, eq: nat, m: string, literal: bool, comment: string)
    requires FirstEquals(l, eq) && !HasHash(m) && (literal ==> '\'' !in m)
    requires comment == [] || (comment[0] == '#' && !IsSpace(comment[|comment| - 1]))
    requires var q := if literal then ['\''] + m + ['\''] else Quote(m);
      l[eq + 1..] == " " + (if comment == [] then q else q + [' '] + comment)
    ensures ReadValue(TrimSpace(l)) == Some(m)
  {
    var q := if literal then ['\''] + m + ['\''] else Quote(m);
    QuoteEnds(m);
    if literal {
      LiteralValue(m);
    } else {
      QuotedValue(m);
    }
    if comment == [] {
      ReadsTail(l, eq, q);
    } else {
      NoHashInQuoted(m, literal);
      CommentCut(q, comment);
      ReadsTail(l, eq, q + [' '] + comment);
      CutOnce(q);
    }
  }

  lemma CutOnce(q: string)
    requires !HasHash(q)
    ensures CutComment(q) == q
  {}

  lemma NoHashInQuoted(m: string, literal: bool)
    requires !HasHash(m)
    ensures !HasHash(if literal then ['\''] + m + ['\''] else Quote(m))
  {
    if !literal {
      QuoteHash(m);
    }
  }

  // ---- an employee's file ----

  /** Pieces after plain text. */
  lemma AfterPlainText(st: ScanState, l: Line, t: string, ps: seq<Piece>)
    requires !InString(st) && WellFormed(ps) && l == t + Written(ps) && forall c :: c in t ==> Inert(c)
    ensures Advance(st, l, 0) == AfterAll(st, ps)
  {
    assert forall j :: 0 <= j < |t| ==> l[j] == t[j] && t[j] in t;
    SkipInert(st, l, 0, |t|);
    assert l[|t|..] == Written(ps);
    LineScanned(st, l, |t|, ps);
  }

  lemma PieceCons(st: ScanState, p: Piece, ps: seq<Piece>)
    ensures Written([p] + ps) == Spelled(p) + Written(ps)
    ensures WellFormed([p] + ps) <==> GoodPiece(p, Written(ps)) && WellFormed(ps)
    ensures AfterAll(st, [p] + ps) == AfterAll(After(st, p), ps)
  {
    assert ([p] + ps)[1..] == ps;
  }

  lemma LiteralContent(s: string)
    requires '\'' !in s
    ensures Content(s, '\'', false)
  {
    forall k | 0 <= k < |s|
      ensures !Ends(s, 0, k, '\'', false)
    {
      assert s[k] in s;
    }
  }

  /** A Windows path in single quotes, in an array: the line closes, even where the
      path ends in a backslash, and it is no header, comment or managed assignment. */
  lemma ArrayOfPath(key: string, s: string)
    requires GatewayConfig.PlainKey(key) && key !in MANAGED_KEYS && s != [] && '\'' !in s
    ensures OwnLine(key + " =" + (" [" + (['\''] + s + ['\'']) + "]"))
  {
    var l := key + " =" + (" [" + (['\''] + s + ['\'']) + "]");
    ArrayLine(l, key, s);
    assert l[0] == key[0];
    StartsPlainly(l);
    KeyBefore(key, " [" + (['\''] + s + ['\'']) + "]");
  }

  lemma ArrayLine(l: Line, key: string, s: string)
    requires GatewayConfig.PlainKey(key) && s != [] && '\'' !in s
    requires l == key + " =" + (" [" + (['\''] + s + ['\'']) + "]")
    ensures Advance(FRESH, l, 0) == FRESH
  {
    LiteralContent(s);
    ThreePieces(FRESH, Open, Literal(s), Close);
    assert l == (key + " = ") + Written([Open, Literal(s), Close]);
    PlainPrefix(key);
    AfterPlainText(FRESH, l, key + " = ", [Open, Literal(s), Close]);
  }

  lemma PlainPrefix(key: string)
    requires GatewayConfig.PlainKey(key)
    ensures forall c :: c in key + " = " ==> Inert(c)
  {
    assert forall c :: c in key + " = " ==> c in key || c == ' ' || c == '=';
  }

  lemma ThreePieces(st: ScanState, a: Piece, b: Piece, c: Piece)
    ensures Written([a, b, c]) == Spelled(a) + (Spelled(b) + Spelled(c))
    ensures WellFormed([a, b, c])
      <==> GoodPiece(a, Spelled(b) + Spelled(c)) && GoodPiece(b, Spelled(c)) && GoodPiece(c, [])
    ensures AfterAll(st, [a, b, c]) == After(After(After(st, a), b), c)
  {
    assert [a, b, c] == [a] + ([b] + ([c] + []));
    PieceCons(After(After(st, a), b), c, []);
    PieceCons(After(st, a), b, [c] + []);
    PieceCons(st, a, [b] + ([c] + []));
  }

  /** The employee's model in single quotes is a root assignment that closes, and is read. */
  lemma LiteralModel(m: string)
    requires m != [] && '\'' !in m
    ensures var x := "model" + " =" + (" " + (['\''] + m + ['\'']));
      && RootLine(x) && KeyOf(x) == Some("model")
      && ReadValue(TrimSpace(x)) == if HasHash(m) then None else Some(m)
  {
    var q := ['\''] + m + ['\''];
    var x := "model" + " =" + (" " + q);
    LiteralLine(x, m);
    StartsPlainly(x);
    KeyBefore("model", " " + q);
    assert "model" in MANAGED_KEYS;
    assert x[6] == '=' && x[7..] == " " + q && forall k :: 0 <= k < 6 ==> x[k] != '=';
    ReadsTail(x, 6, q);
    LiteralValue(m);
  }

  lemma LiteralLine(x: Line, m: string)
    requires m != [] && '\'' !in m && x == "model" + " =" + (" " + (['\''] + m + ['\'']))
    ensures Advance(FRESH, x, 0) == FRESH
  {
    LiteralContent(m);
    assert [Literal(m)] == [Literal(m)] + [];
    PieceCons(FRESH, Literal(m), []);
    AfterPlainText(FRESH, x, "model = ", [Literal(m)]);
  }

  /** A path above the employee's model hides nothing: the model line is taken out, the
      path stays, and the model is the employee's choice. */
  lemma ModelBelowPath(key: string, s: string, m: string, allowed: seq<string>)
    requires GatewayConfig.PlainKey(key) && key !in MANAGED_KEYS && s != [] && '\'' !in s
    requires m != [] && '\'' !in m && !HasHash(m) && m in allowed
    ensures var l := key + " =" + (" [" + (['\''] + s + ['\'']) + "]");
      var x := "model" + " =" + (" " + (['\''] + m + ['\'']));
      Kept([l] + [x]) == [l] && KeptModel([l] + [x], allowed) == Some(m)
  {
    var l := key + " =" + (" [" + (['\''] + s + ['\'']) + "]");
    var x := "model" + " =" + (" " + (['\''] + m + ['\'']));
    ArrayOfPath(key, s);
    LiteralModel(m);
    ManagedBelow([l], x);
    ModelBelow([l], x, allowed);
  }
}
