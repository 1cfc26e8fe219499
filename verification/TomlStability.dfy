/** Scan stability: removing what the tool owns does not change how the rest of
    the file is read. */
module TomlStability {
  import opened Text
  import opened TomlScan
  import opened TomlSections
  import opened TomlStrip

  /** No comment line holds a triple quote. A comment line is recognised by its
      text alone, so one that also ends a multi-line string is ambiguous. */
  ghost predicate CommentsClean(ls: seq<Line>) {
    forall l :: l in ls && Comment(l) ==> !HasTriple(l)
  }

  lemma OneStep(st: ScanState, l: Line, rest: seq<Line>, recover: bool)
    ensures EndState(st, [l] + rest, recover) == EndState(NextState(st, l, recover), rest, recover)
    ensures Classify(st, [l] + rest, recover)
      == [ClassifyLine(st, l, recover)] + Classify(NextState(st, l, recover), rest, recover)
  {
    assert ([l] + rest)[1..] == rest;
  }

  lemma FillerKeepsState(st: ScanState, l: Line, recover: bool)
    requires Filler(l) && (Comment(l) ==> !HasTriple(l))
    ensures Shape(l).None? && NextState(st, l, recover) == st
  {
    if Blank(l) {
      BlankKeepsState(st, l);
    } else {
      CommentKeepsState(st, l);
    }
  }

  /** No line inside a value leads up to a header: no header takes over the end of
      a string that looks like a comment. */
  predicate Apart(cs: seq<TomlLine>) {
    cs == [] || ((Lead(cs).Some? ==> !cs[0].continuation) && Apart(cs[1..]))
  }

  /** Neither in the file nor in what the strip keeps of it, as far as they close. */
  predicate Whole(ls: seq<Line>) {
    (Closes(ls) ==> Apart(Scan(ls))) && (Closes(Kept(ls)) ==> Apart(Scan(Kept(ls))))
  }

  /** Outside every value a comment is only a comment. */
  lemma FreshFiller(l: Line, recover: bool)
    requires Filler(l)
    ensures Shape(l).None? && NextState(FRESH, l, recover) == FRESH
  {
    if Blank(l) {
      BlankKeepsState(FRESH, l);
    } else {
      CommentInFresh(l);
    }
  }

  lemma FreshLead(st: ScanState, ls: seq<Line>)
    requires Lead(Classify(st, ls, false)).Some? && Apart(Classify(st, ls, false))
    ensures st.Fresh()
  {}

  /** Where no comment line holds a triple quote, nothing in a value leads to a header. */
  lemma {:induction false} LeadNeedsFresh(st: ScanState, ls: seq<Line>)
    requires CommentsClean(ls)
    requires Lead(Classify(st, ls, false)).Some?
    ensures st.Fresh()
    decreases |ls|
  {
    var cs := Classify(st, ls, false);
    if !cs[0].isHeader {
      assert cs[1..] == Classify(NextState(st, ls[0], false), ls[1..], false);
      FillerKeepsState(st, ls[0], false);
      LeadNeedsFresh(st, ls[1..]);
    }
  }

  lemma {:induction false} CleanIsApart(st: ScanState, ls: seq<Line>)
    requires CommentsClean(ls)
    ensures Apart(Classify(st, ls, false))
    decreases |ls|
  {
    if ls != [] {
      CleanIsApart(NextState(st, ls[0], false), ls[1..]);
      if Lead(Classify(st, ls, false)).Some? {
        LeadNeedsFresh(st, ls);
      }
    }
  }

  /** The strip is in the middle of a value or table that it removes. */
  predicate Dropping(st: ScanState, s: StripState) {
    !st.Fresh() && (s.drop || s.table == Some(MANAGED_TABLE))
  }

  /** Where the scan of the kept lines stands when the scan of the file is in st. */
  function KeptState(st: ScanState, s: StripState): ScanState {
    if Dropping(st, s) then FRESH else st
  }

  lemma KeptStep(st: ScanState, s: StripState, ls: seq<Line>)
    requires ls != [] && Apart(Classify(st, ls, false))
    ensures var (keep, s') := StripStep(s, Classify(st, ls, false));
      var st' := NextState(st, ls[0], false);
      if keep then KeptState(st, s) == st && KeptState(st', s') == st'
      else KeptState(st, s) == KeptState(st', s')
  {
    var cs := Classify(st, ls, false);
    if Lead(cs).Some? {
      FreshLead(st, ls);
      if !cs[0].isHeader {
        FreshFiller(ls[0], false);
      }
    }
  }

  lemma TextsCons(c: TomlLine, cs: seq<TomlLine>)
    ensures Texts([c] + cs) == [c.text] + Texts(cs)
  {}

  /** What is kept of a file that closes is classified as it was, and closes too. */
  lemma {:induction false} KeptScansTheSame(st: ScanState, s: StripState, ls: seq<Line>)
    requires Apart(Classify(st, ls, false)) && EndState(st, ls, false).Fresh()
    ensures var kept := Strip(s, Classify(st, ls, false));
      && Classify(KeptState(st, s), Texts(kept), false) == kept
      && EndState(KeptState(st, s), Texts(kept), false).Fresh()
    decreases |ls|
  {
    if ls != [] {
      var cs := Classify(st, ls, false);
      var (keep, s') := StripStep(s, cs);
      var st' := NextState(st, ls[0], false);
      assert cs[1..] == Classify(st', ls[1..], false);
      KeptScansTheSame(st', s', ls[1..]);
      KeptStep(st, s, ls);
      var rest := Strip(s', cs[1..]);
      if keep {
        TextsCons(cs[0], rest);
        assert ([cs[0].text] + Texts(rest))[1..] == Texts(rest);
      } else {
        assert Strip(s, cs) == rest;
      }
    }
  }
  // ---- any choice of values ----

  /** The lines that keep marks. */
  function Picked(cs: seq<TomlLine>, keep: seq<bool>): seq<TomlLine>
    requires |keep| == |cs|
  {
    if cs == [] then [] else (if keep[0] then [cs[0]] else []) + Picked(cs[1..], keep[1..])
  }

  /** No value is kept in part: a line inside one goes where the line before it went. */
  predicate ByWholeValues(before: bool, cs: seq<TomlLine>, keep: seq<bool>)
    requires |keep| == |cs|
    decreases |cs|
  {
    cs == [] || ((cs[0].continuation ==> keep[0] == before) && ByWholeValues(keep[0], cs[1..], keep[1..]))
  }

  function PickedState(st: ScanState, before: bool): ScanState {
    if before then st else FRESH
  }

  lemma PickedStep(st: ScanState, before: bool, l: Line, keep: bool)
    requires ClassifyLine(st, l, false).continuation ==> keep == before
    ensures keep ==> PickedState(st, before) == st
    ensures !keep ==> PickedState(st, before) == PickedState(NextState(st, l, false), false)
  {}

  /** Whichever values and tables are taken out of a file that closes, as long as each
      goes as a whole, the rest is classified as it was, and closes too. */
  lemma {:induction false} AnyChoiceScansTheSame(st: ScanState, before: bool, ls: seq<Line>, keep: seq<bool>)
    requires |keep| == |ls| && ByWholeValues(before, Classify(st, ls, false), keep)
    requires EndState(st, ls, false).Fresh()
    ensures var picked := Picked(Classify(st, ls, false), keep);
      && Classify(PickedState(st, before), Texts(picked), false) == picked
      && EndState(PickedState(st, before), Texts(picked), false).Fresh()
    decreases |ls|
  {
    if ls != [] {
      var cs, st' := Classify(st, ls, false), NextState(st, ls[0], false);
      ClassifyFirst(st, ls, false);
      assert cs[1..] == Classify(st', ls[1..], false);
      AnyChoiceScansTheSame(st', keep[0], ls[1..], keep[1..]);
      PickedStep(st, before, ls[0], keep[0]);
      var rest := Picked(cs[1..], keep[1..]);
      if keep[0] {
        TextsCons(cs[0], rest);
        OneStep(st, ls[0], Texts(rest), false);
      } else {
        assert Picked(cs, keep) == rest;
      }
    }
  }
}
