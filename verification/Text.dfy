/** Lines of text as Go's strings package sees them: white space, trimming,
    prefixes, and the split of a file into physical lines. */
module Text {

  datatype Option<+T> = None | Some(value: T)

  type Line = string

  /** unicode.IsSpace. */
  predicate IsSpace(c: char) {
    || '\t' <= c <= '\r' || c == ' '
    || c == '\U{0085}' || c == '\U{00A0}' || c == '\U{1680}'
    || '\U{2000}' <= c <= '\U{200A}' || c == '\U{2028}' || c == '\U{2029}'
    || c == '\U{202F}' || c == '\U{205F}' || c == '\U{3000}'
  }

  /** How many white-space characters s starts with. */
  function Indent(s: string): (k: nat)
    ensures k <= |s|
  {
    if s != [] && IsSpace(s[0]) then 1 + Indent(s[1..]) else 0
  }

  lemma {:induction false} IndentMeaning(s: string)
    ensures forall i :: 0 <= i < Indent(s) ==> IsSpace(s[i])
    ensures Indent(s) < |s| ==> !IsSpace(s[Indent(s)])
  {
    if s != [] && IsSpace(s[0]) {
      IndentMeaning(s[1..]);
    }
  }

  function TrimRight(s: string): (r: string)
    ensures |r| <= |s|
  {
    if s != [] && IsSpace(s[|s| - 1]) then TrimRight(s[..|s| - 1]) else s
  }

  lemma {:induction false} TrimRightMeaning(s: string)
    ensures TrimRight(s) <= s
    ensures TrimRight(s) != [] ==> !IsSpace(TrimRight(s)[|TrimRight(s)| - 1])
    ensures s != [] && !IsSpace(s[0]) ==> TrimRight(s) != []
    ensures s != [] && !IsSpace(s[|s| - 1]) ==> TrimRight(s) == s
  {
    if s != [] && IsSpace(s[|s| - 1]) {
      TrimRightMeaning(s[..|s| - 1]);
    }
  }

  /** strings.TrimSpace. */
  function TrimSpace(s: string): string {
    TrimRight(s[Indent(s)..])
  }

  /** Three times the quote character q, at position i. */
  predicate TripleAt(s: string, i: nat, q: char) {
    i + 3 <= |s| && s[i] == s[i + 1] == s[i + 2] == q
  }

  /** White space only. */
  predicate Blank(l: Line) {
    Indent(l) == |l|
  }

  /** The first character that is not white space is `#`. */
  predicate Comment(l: Line) {
    Indent(l) < |l| && l[Indent(l)] == '#'
  }

  /** A blank or comment line, judged by its text alone. */
  predicate Filler(l: Line) {
    Blank(l) || Comment(l)
  }

  lemma TrimmedStart(l: Line)
    ensures TrimSpace(l) == [] <==> Blank(l)
    ensures !Blank(l) ==> TrimSpace(l)[0] == l[Indent(l)]
  {
    IndentMeaning(l);
    TrimRightMeaning(l[Indent(l)..]);
  }

  /** strings.IndexByte: the first position of c at or after i, or |s|. */
  function IndexFrom(s: string, c: char, i: nat): (k: nat)
    requires i <= |s|
    ensures i <= k <= |s|
    decreases |s| - i
  {
    if i < |s| && s[i] != c then IndexFrom(s, c, i + 1) else i
  }

  lemma {:induction false} IndexMeaning(s: string, c: char, i: nat)
    requires i <= |s|
    ensures forall j :: i <= j < IndexFrom(s, c, i) ==> s[j] != c
    ensures IndexFrom(s, c, i) < |s| ==> s[IndexFrom(s, c, i)] == c
    decreases |s| - i
  {
    if i < |s| && s[i] != c {
      IndexMeaning(s, c, i + 1);
    }
  }

  /** The order of Go strings. */
  predicate Before(a: string, b: string) {
    if b == [] then false else if a == [] then true
    else a[0] < b[0] || (a[0] == b[0] && Before(a[1..], b[1..]))
  }

  lemma {:induction false} BeforeIsStrict(a: string, b: string)
    requires Before(a, b)
    ensures !Before(b, a)
  {
    if a != [] && a[0] == b[0] {
      BeforeIsStrict(a[1..], b[1..]);
    }
  }

  /** The texts agree up to place k, where a ends or has the smaller character. */
  predicate SmallerAt(a: string, b: string, k: nat) {
    k <= |a| && k < |b| && a[..k] == b[..k] && (k == |a| || a[k] < b[k])
  }

  lemma {:induction false} BeforeExactly(a: string, b: string)
    ensures Before(a, b) <==> exists k: nat :: SmallerAt(a, b, k)
  {
    if a != [] && b != [] && a[0] == b[0] {
      BeforeExactly(a[1..], b[1..]);
      forall k: nat | SmallerAt(a[1..], b[1..], k)
        ensures SmallerAt(a, b, k + 1)
      {
        assert a[..k + 1] == [a[0]] + a[1..][..k] && b[..k + 1] == [b[0]] + b[1..][..k];
      }
      forall k: nat | SmallerAt(a, b, k)
        ensures k > 0 && SmallerAt(a[1..], b[1..], k - 1)
      {
        assert a[1..][..k - 1] == a[..k][1..] && b[1..][..k - 1] == b[..k][1..];
      }
    } else if a == [] && b != [] {
      assert SmallerAt(a, b, 0);
    } else if b != [] {
      assert a[0] < b[0] ==> SmallerAt(a, b, 0);
      assert forall k: nat :: SmallerAt(a, b, k) && k > 0 ==> a[..k][0] == b[..k][0];
    }
  }

  /** strings.ToLower, on the letters A to Z. */
  function Lower(name: string): (r: string)
    ensures |r| == |name|
  {
    seq(|name|, i requires 0 <= i < |name| => if 'A' <= name[i] <= 'Z' then name[i] - 'A' + 'a' else name[i])
  }

  // ---- physical lines ----

  /** bufio.ScanLines drops one carriage return at the end of a line. */
  function DropCR(l: Line): Line {
    if l != [] && l[|l| - 1] == '\r' then l[..|l| - 1] else l
  }

  /** The physical lines of a file, as bufio.Scanner delivers them. */
  function Lines(text: string): seq<Line>
    decreases |text|
  {
    if text == [] then []
    else
      var k := IndexFrom(text, '\n', 0);
      if k == |text| then [DropCR(text)] else [DropCR(text[..k])] + Lines(text[k + 1..])
  }

  /** The length of a text in UTF-8. */
  function Bytes(s: string): nat {
    if s == [] then 0 else Width(s[0]) + Bytes(s[1..])
  }

  function Width(c: char): nat {
    if c < '\U{0080}' then 1 else if c < '\U{0800}' then 2 else if c < '\U{10000}' then 3 else 4
  }

  /** The buffer of the line scanner: a line of this length does not fit. */
  const LINE_LIMIT: nat := 4 * 1024 * 1024

  /** bufio.Scanner reads the text to its end. */
  predicate Scannable(text: string)
    decreases |text|
  {
    text == [] || (
      var k := IndexFrom(text, '\n', 0);
      Bytes(text[..k]) < LINE_LIMIT && (k == |text| || Scannable(text[k + 1..])))
  }

  predicate Fits(ls: seq<Line>) {
    forall l :: l in ls ==> Bytes(l) < LINE_LIMIT
  }

  /** joinTomlLines: every line followed by a newline. */
  function Join(ls: seq<Line>): string {
    if ls == [] then [] else ls[0] + "\n" + Join(ls[1..])
  }

  /** A line that survives being written and read back. */
  predicate Clean(l: Line) {
    '\n' !in l && (l == [] || l[|l| - 1] != '\r')
  }

  lemma {:induction false} JoinThenLines(ls: seq<Line>)
    requires forall l :: l in ls ==> '\n' !in l
    ensures |Lines(Join(ls))| == |ls|
    ensures forall i :: 0 <= i < |ls| ==> Lines(Join(ls))[i] == DropCR(ls[i])
  {
    if ls != [] {
      var text := Join(ls);
      var rest := ls[0] + "\n";
      assert text == rest + Join(ls[1..]);
      var k := IndexFrom(text, '\n', 0);
      assert text[|ls[0]|] == '\n';
      assert forall j :: 0 <= j < |ls[0]| ==> text[j] == ls[0][j];
      assert ls[0] in ls;
      IndexMeaning(text, '\n', 0);
      assert k == |ls[0]|;
      assert text[..k] == ls[0] && text[k + 1..] == Join(ls[1..]);
      JoinThenLines(ls[1..]);
    }
  }

  lemma CleanRoundTrip(ls: seq<Line>)
    requires forall l :: l in ls ==> Clean(l)
    ensures Lines(Join(ls)) == ls
  {
    assert forall l :: l in ls ==> Clean(l) && '\n' !in l;
    JoinThenLines(ls);
    forall i | 0 <= i < |ls|
      ensures DropCR(ls[i]) == ls[i]
    {
      assert Clean(ls[i]);
    }
  }

  lemma {:induction false} LinesHaveNoNewline(text: string)
    ensures forall l :: l in Lines(text) ==> '\n' !in l
    decreases |text|
  {
    if text != [] {
      var k := IndexFrom(text, '\n', 0);
      IndexMeaning(text, '\n', 0);
      if k < |text| {
        LinesHaveNoNewline(text[k + 1..]);
      }
    }
  }

  lemma {:induction false} JoinConcat(a: seq<Line>, b: seq<Line>)
    ensures Join(a + b) == Join(a) + Join(b)
  {
    if a == [] {
      assert a + b == b;
    } else {
      assert (a + b)[1..] == a[1..] + b;
      JoinConcat(a[1..], b);
    }
  }
  lemma {:induction false} BytesConcat(a: string, b: string)
    ensures Bytes(a + b) == Bytes(a) + Bytes(b)
  {
    if a == [] {
      assert a + b == b;
    } else {
      assert (a + b)[0] == a[0] && (a + b)[1..] == a[1..] + b;
      BytesConcat(a[1..], b);
    }
  }

  lemma DropCRBytes(l: Line)
    ensures Bytes(DropCR(l)) <= Bytes(l)
  {
    if DropCR(l) != l {
      assert l == DropCR(l) + "\r";
      BytesConcat(DropCR(l), "\r");
    }
  }

  lemma {:induction false} ScannedLinesFit(text: string)
    requires Scannable(text)
    ensures Fits(Lines(text))
    decreases |text|
  {
    if text != [] {
      var k := IndexFrom(text, '\n', 0);
      DropCRBytes(text[..k]);
      if k < |text| {
        ScannedLinesFit(text[k + 1..]);
      } else {
        assert text[..k] == text;
      }
    }
  }

  lemma {:induction false} JoinScannable(ls: seq<Line>)
    requires forall l :: l in ls ==> '\n' !in l
    ensures Scannable(Join(ls)) <==> Fits(ls)
  {
    if ls != [] {
      FirstOfJoin(ls);
      JoinScannable(ls[1..]);
      assert ls[0] in ls && ls == [ls[0]] + ls[1..];
    }
  }

  lemma FirstOfJoin(ls: seq<Line>)
    requires ls != [] && '\n' !in ls[0]
    ensures var text := Join(ls);
      var k := IndexFrom(text, '\n', 0);
      k < |text| && text[..k] == ls[0] && text[k + 1..] == Join(ls[1..])
  {
    var text := Join(ls);
    assert text == ls[0] + "\n" + Join(ls[1..]);
    assert text[|ls[0]|] == '\n' && forall j :: 0 <= j < |ls[0]| ==> text[j] == ls[0][j];
    IndexMeaning(text, '\n', 0);
    assert IndexFrom(text, '\n', 0) == |ls[0]|;
  }
}
