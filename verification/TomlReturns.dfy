/** Carriage returns at the ends of lines. A reader drops one per line, and a
    merge reads twice; nothing the merge decides depends on them. */
module TomlReturns {
  import opened Text
  import opened TomlScan
  import opened TomlSections
  import opened TomlStrip
  import opened TomlModel

  // ---- one line ----

  lemma {:induction false} IndentBeforeReturn(m: Line)
    ensures Indent(m + "\r") == if Blank(m) then |m| + 1 else Indent(m)
  {
    if m == [] {
      assert "\r"[1..] == [];
    } else {
      assert (m + "\r")[1..] == m[1..] + "\r";
      IndentBeforeReturn(m[1..]);
    }
  }

  lemma TrimBeforeReturn(m: Line)
    ensures TrimSpace(m + "\r") == TrimSpace(m)
  {
    IndentBeforeReturn(m);
    var l := m + "\r";
    if !Blank(m) {
      var rest := l[Indent(m)..];
      assert rest[..|rest| - 1] == m[Indent(m)..];
    }
  }

  lemma {:induction false} SkipBeforeReturn(m: Line, i: nat, quote: char, escapes: bool)
    requires i <= |m| && quote != '\r'
    ensures var k := SkipString(m, i, quote, escapes);
      SkipString(m + "\r", i, quote, escapes) == k || (k == |m| && SkipString(m + "\r", i, quote, escapes) == k + 1)
    decreases |m| - i
  {
    if i < |m| {
      if escapes && m[i] == '\\' && i + 1 < |m| {
        SkipBeforeReturn(m, i + 2, quote, escapes);
      } else if m[i] != quote {
        SkipBeforeReturn(m, i + 1, quote, escapes);
      }
    }
  }

  lemma TripleBeforeReturn(m: Line, i: nat, q: char)
    requires q != '\r'
    ensures TripleAt(m + "\r", i, q) == TripleAt(m, i, q)
  {}

  lemma AtReturn(st: ScanState, m: Line)
    ensures Advance(st, m + "\r", |m|) == st
  {}

  lemma {:induction false} AdvanceBeforeReturn(st: ScanState, m: Line, i: nat)
    requires i <= |m|
    ensures Advance(st, m + "\r", i) == Advance(st, m, i)
    decreases |m| - i
  {
    var l := m + "\r";
    if i == |m| {
      AtReturn(st, m);
    } else {
      TripleBeforeReturn(m, i, '"');
      TripleBeforeReturn(m, i, '\'');
      if st.inTripleDouble || st.inTripleSingle {
        if TripleAt(m, i, '"') {
          AdvanceBeforeReturn(st.(inTripleDouble := false), m, i + 3);
        }
        if TripleAt(m, i, '\'') {
          AdvanceBeforeReturn(st.(inTripleSingle := false), m, i + 3);
        }
        AdvanceBeforeReturn(st, m, i + 1);
      } else if TripleAt(m, i, '"') {
        AdvanceBeforeReturn(st.(inTripleDouble := true), m, i + 3);
      } else if TripleAt(m, i, '\'') {
        AdvanceBeforeReturn(st.(inTripleSingle := true), m, i + 3);
      } else if m[i] == '"' || m[i] == '\'' {
        SkipBeforeReturn(m, i + 1, m[i], m[i] == '"');
        AdvanceBeforeReturn(st, m, SkipString(m, i + 1, m[i], m[i] == '"'));
        AtReturn(st, m);
      } else if m[i] != '#' {
        AdvanceBeforeReturn(NextDepth(st, m[i]), m, i + 1);
      }
    }
  }

  function NextDepth(st: ScanState, c: char): ScanState {
    if c == '[' then st.(depth := st.depth + 1)
    else if c == ']' && st.depth > 0 then st.(depth := st.depth - 1)
    else st
  }

  /** Whatever is read of a line is read of it without the return. */
  lemma SameReading(l: Line)
    ensures TrimSpace(DropCR(l)) == TrimSpace(l)
    ensures forall st :: Advance(st, DropCR(l), 0) == Advance(st, l, 0)
    ensures Blank(DropCR(l)) == Blank(l) && Comment(DropCR(l)) == Comment(l)
  {
    var m := DropCR(l);
    if m != l {
      assert l == m + "\r";
      TrimBeforeReturn(m);
      forall st
        ensures Advance(st, m, 0) == Advance(st, l, 0)
      {
        AdvanceBeforeReturn(st, m, 0);
      }
    }
    TrimmedStart(l);
    TrimmedStart(m);
  }

  // ---- a file ----

  function DropReturns(ls: seq<Line>): (r: seq<Line>)
    ensures |r| == |ls| && forall i :: 0 <= i < |ls| ==> r[i] == DropCR(ls[i])
  {
    seq(|ls|, i requires 0 <= i < |ls| => DropCR(ls[i]))
  }

  /** The same classes, over lines without the return. */
  function Dropped(cs: seq<TomlLine>): (r: seq<TomlLine>)
    ensures |r| == |cs| && forall i :: 0 <= i < |cs| ==> r[i] == cs[i].(text := DropCR(cs[i].text))
  {
    seq(|cs|, i requires 0 <= i < |cs| => cs[i].(text := DropCR(cs[i].text)))
  }

  lemma DroppedSlice(cs: seq<TomlLine>, i: nat)
    requires i <= |cs|
    ensures Dropped(cs)[i..] == Dropped(cs[i..])
  {}

  lemma {:induction false} ClassifyDropped(st: ScanState, ls: seq<Line>, recover: bool)
    ensures Classify(st, DropReturns(ls), recover) == Dropped(Classify(st, ls, recover))
    ensures EndState(st, DropReturns(ls), recover) == EndState(st, ls, recover)
    decreases |ls|
  {
    if ls != [] {
      SameReading(ls[0]);
      assert DropReturns(ls)[1..] == DropReturns(ls[1..]);
      ClassifyDropped(NextState(st, ls[0], recover), ls[1..], recover);
    }
  }

  lemma ScanDropped(ls: seq<Line>)
    ensures Scan(DropReturns(ls)) == Dropped(Scan(ls)) && Closes(DropReturns(ls)) == Closes(ls)
  {
    ClassifyDropped(FRESH, ls, false);
    ClassifyDropped(FRESH, ls, true);
  }

  lemma {:induction false} LeadDropped(cs: seq<TomlLine>)
    ensures Lead(Dropped(cs)) == Lead(cs)
  {
    if cs != [] {
      SameReading(cs[0].text);
      DroppedSlice(cs, 1);
      LeadDropped(cs[1..]);
    }
  }

  lemma StripStepDropped(s: StripState, cs: seq<TomlLine>)
    requires cs != []
    ensures StripStep(s, Dropped(cs)) == StripStep(s, cs)
  {
    SameReading(cs[0].text);
    LeadDropped(cs);
  }

  lemma DroppedMore(c: TomlLine, kept: seq<TomlLine>)
    ensures Dropped([c] + kept) == [c.(text := DropCR(c.text))] + Dropped(kept)
  {}

  lemma {:induction false} StripDropped(s: StripState, cs: seq<TomlLine>)
    ensures Strip(s, Dropped(cs)) == Dropped(Strip(s, cs))
    decreases |cs|
  {
    if cs != [] {
      var (keep, s') := StripStep(s, cs);
      StripStepDropped(s, cs);
      DroppedSlice(cs, 1);
      StripDropped(s', cs[1..]);
      if keep {
        DroppedMore(cs[0], Strip(s', cs[1..]));
      } else {
        assert Strip(s, cs) == Strip(s', cs[1..]);
      }
    }
  }

  /** The strip keeps the same lines. */
  lemma KeptDropped(ls: seq<Line>)
    ensures Kept(DropReturns(ls)) == DropReturns(Kept(ls))
  {
    ScanDropped(ls);
    StripDropped(AT_ROOT, Scan(ls));
  }

  /** The same model is read. */
  lemma {:induction false} RootStringDropped(table: Option<string>, cs: seq<TomlLine>, key: string)
    ensures RootString(table, Dropped(cs), key) == RootString(table, cs, key)
    decreases |cs|
  {
    if cs != [] {
      SameReading(cs[0].text);
      LeadDropped(cs);
      DroppedSlice(cs, 1);
      RootStringDropped(Enter(table, cs[0]), cs[1..], key);
    }
  }

  /** And the same gateway identity. */
  lemma {:induction false} IdentityDropped(table: Option<string>, cs: seq<TomlLine>)
    ensures Identity(table, Dropped(cs)) == Identity(table, cs)
    decreases |cs|
  {
    if cs != [] {
      SameReading(cs[0].text);
      LeadDropped(cs);
      DroppedSlice(cs, 1);
      IdentityDropped(Enter(table, cs[0]), cs[1..]);
    }
  }

  // ---- how many there are ----

  predicate CleanLines(ls: seq<Line>) {
    forall l :: l in ls ==> Clean(l)
  }

  predicate OneLiners(ls: seq<Line>) {
    forall l :: l in ls ==> '\n' !in l
  }

  lemma NothingToDrop(ls: seq<Line>)
    requires CleanLines(ls)
    ensures DropReturns(ls) == ls
  {
    assert forall i :: 0 <= i < |ls| ==> ls[i] in ls;
  }

  /** The carriage returns at the end of a line. */
  function Returns(l: Line): nat {
    if l != [] && l[|l| - 1] == '\r' then 1 + Returns(l[..|l| - 1]) else 0
  }

  lemma {:induction false} MostReturns(ls: seq<Line>) returns (l: Line)
    requires ls != []
    ensures l in ls && forall x :: x in ls ==> Returns(x) <= Returns(l)
  {
    l := ls[0];
    if |ls| > 1 {
      var m := MostReturns(ls[1..]);
      l := if Returns(m) > Returns(l) then m else l;
    }
  }

  lemma CleanHasNone(l: Line)
    requires '\n' !in l
    ensures Clean(l) <==> Returns(l) == 0
  {}

  lemma DroppedTwice(l: Line, m: Line)
    requires m == DropCR(DropCR(l)) && Returns(l) <= Returns(m)
    ensures Returns(m) == 0
  {}

  /** Lines read back twice do not all come from themselves while one of them
      still ends in a return. */
  lemma ReturnsGoDown(ls: seq<Line>, again: seq<Line>)
    requires OneLiners(ls) && !CleanLines(ls)
    requires forall l :: l in again ==> Clean(l) || l in DropReturns(DropReturns(ls))
    ensures again != ls
  {
    var most := MostReturns(ls);
    var x :| x in ls && !Clean(x);
    CleanHasNone(x);
    CleanHasNone(most);
    if most in again {
      var i :| 0 <= i < |ls| && DropReturns(DropReturns(ls))[i] == most;
      DroppedTwice(ls[i], most);
    }
  }
}
