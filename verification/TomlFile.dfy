/** The merge on file contents, step by step as the program does it
    (mergeCodexConfigKeeping and the functions it calls). */
module TomlFile {
  import opened Text
  import opened GoQuote
  import opened TomlScan
  import opened TomlSections
  import opened TomlStrip
  import opened TomlStability
  import opened TomlAssembly
  import opened TomlRedelivery
  import opened TomlConvergence
  import opened TomlModel
  import opened TomlMerge
  import opened TomlReturns

  // ---- appendTomlSection ----

  /** strings.Split(s, "\n"). */
  function SplitNewlines(s: string): (ls: seq<Line>)
    ensures ls != []
    decreases |s|
  {
    var k := IndexFrom(s, '\n', 0);
    if k == |s| then [s] else [s[..k]] + SplitNewlines(s[k + 1..])
  }

  /** strings.Join(ls, "\n"). */
  function JoinNewlines(ls: seq<Line>): string {
    if ls == [] then [] else if |ls| == 1 then ls[0] else ls[0] + "\n" + JoinNewlines(ls[1..])
  }

  function SectionLines(section: string): seq<Line> {
    var ls := SplitNewlines(section);
    if ls[|ls| - 1] == [] then ls[..|ls| - 1] else ls
  }

  function TrimText(section: string): string {
    JoinNewlines(TrimBlank(SectionLines(section)))
  }

  function AppendText(out: string, section: string): string {
    var t := TrimText(section);
    if t == [] then out else (if out == [] then [] else out + "\n") + t + "\n"
  }

  /** What drops off the front, then off the back, is what TrimBlank drops. */
  lemma {:induction false} TrimBlankSlice(ls: seq<Line>, start: nat, end: nat)
    requires start <= end <= |ls|
    requires AllBlank(ls[..start]) && AllBlank(ls[end..])
    requires start < end ==> !Blank(ls[start]) && !Blank(ls[end - 1])
    ensures TrimBlank(ls) == ls[start..end]
  {
    assert ls == ls[..start] + ls[start..end] + ls[end..];
    TrimIgnoresBlanks(ls[..start], ls[start..end], ls[end..]);
  }

  method TrimBlankTomlLines(section: string) returns (t: string)
    ensures t == TrimText(section)
  {
    var lines := SplitNewlines(section);
    if lines[|lines| - 1] == "" {
      lines := lines[..|lines| - 1];
    }
    var start := 0;
    while start < |lines| && Blank(lines[start])
      invariant 0 <= start <= |lines|
      invariant AllBlank(lines[..start])
    {
      start := start + 1;
    }
    var end := |lines|;
    while end > start && Blank(lines[end - 1])
      invariant start <= end <= |lines|
      invariant AllBlank(lines[end..])
    {
      end := end - 1;
      assert lines[end..] == [lines[end]] + lines[end + 1..];
    }
    TrimBlankSlice(lines, start, end);
    t := JoinNewlines(lines[start..end]);
  }

  method AppendTomlSection(out: string, section: string) returns (after: string)
    ensures after == AppendText(out, section)
  {
    after := out;
    var trimmed := TrimBlankTomlLines(section);
    if |trimmed| == 0 {
      return;
    }
    if |after| > 0 {
      after := after + "\n";
    }
    after := after + trimmed;
    after := after + "\n";
  }

  // ---- mergeCodexConfigKeeping ----

  function ChosenText(existing: string, incoming: string, allowed: seq<string>): string {
    var current := RootStringText(existing, "model");
    if current.Some? && current.value != "" && current.value in allowed && Scannable(incoming)
    then SetRootText(incoming, "model", current.value) else incoming
  }

  function AssembleText(incoming: string, kept: string): string {
    AppendText(AppendText(AppendText(AppendText("", RootText(incoming)), RootText(kept)), TablesText(incoming)),
      TablesText(kept))
  }

  /** What cannot be scanned is not merged: the delivered content is written as it is. */
  function MergeScanned(existing: string, incoming: string): string {
    if Scannable(existing) && Scannable(incoming) && Scannable(StripText(existing))
    then AssembleText(incoming, StripText(existing)) else incoming
  }

  /** The content written for an existing file, or for none. */
  function MergeText(existing: Option<string>, incoming: string, allowed: seq<string>): string {
    if existing.None? || TrimSpace(existing.value) == [] then incoming
    else MergeScanned(existing.value, ChosenText(existing.value, incoming, allowed))
  }

  method MergeCodexConfigKeeping(existing: Option<string>, incoming: string, allowed: seq<string>) returns (out: string)
    ensures out == MergeText(existing, incoming, allowed)
  {
    if existing.None? {
      return incoming;
    }
    if |TrimSpace(existing.value)| == 0 {
      return incoming;
    }
    var chosen := incoming;
    var current := RootStringValue(existing.value, "model");
    if current.Some? && current.value != "" && current.value in allowed {
      var replaced, done := SetRootString(incoming, "model", current.value);
      if done {
        chosen := replaced;
      }
    }
    out := MergeSections(existing.value, chosen);
  }

  method MergeSections(existing: string, incoming: string) returns (out: string)
    ensures out == MergeScanned(existing, incoming)
  {
    var kept, stripped := StripCodexManaged(existing);
    if !stripped {
      return incoming;
    }
    var deliveredRoot, deliveredTables, split := SplitTomlRootAndTables(incoming);
    if !split {
      return incoming;
    }
    var keptRoot, keptTables, cut := SplitTomlRootAndTables(kept);
    if !cut {
      return incoming;
    }
    out := "";
    out := AppendTomlSection(out, deliveredRoot);
    out := AppendTomlSection(out, keptRoot);
    out := AppendTomlSection(out, deliveredTables);
    out := AppendTomlSection(out, keptTables);
  }

  // ---- from file contents to lines ----

  /** The lines of a file as the last step of a merge has them: read once for the
      strip, and once more for the cut. */
  function ReadBack(text: string): seq<Line> {
    DropReturns(Lines(text))
  }

  lemma JoinThenRead(ls: seq<Line>)
    requires OneLiners(ls)
    ensures Lines(Join(ls)) == DropReturns(ls)
  {
    JoinThenLines(ls);
  }

  lemma JoinInjective(a: seq<Line>, b: seq<Line>)
    requires OneLiners(a) && OneLiners(b) && Join(a) == Join(b)
    ensures a == b
  {
    SplitJoin(a);
    SplitJoin(b);
    assert a == (a + [""])[..|a + [""]| - 1] && b == (b + [""])[..|b + [""]| - 1];
  }

  lemma {:induction false} JoinNewlinesIsJoin(ls: seq<Line>)
    requires ls != []
    ensures JoinNewlines(ls) + "\n" == Join(ls)
  {
    if |ls| > 1 {
      JoinNewlinesIsJoin(ls[1..]);
    } else {
      assert ls[1..] == [];
    }
  }

  lemma SplitFirst(l: Line, rest: string)
    requires '\n' !in l
    ensures SplitNewlines(l + "\n" + rest) == [l] + SplitNewlines(rest)
  {
    var text := l + "\n" + rest;
    assert forall j :: 0 <= j < |l| ==> text[j] == l[j];
    IndexIs(text, '\n', |l|);
    assert text[..|l|] == l && text[|l| + 1..] == rest;
  }

  lemma {:induction false} SplitJoin(ls: seq<Line>)
    requires OneLiners(ls)
    ensures SplitNewlines(Join(ls)) == ls + [""]
  {
    if ls != [] {
      SplitJoin(ls[1..]);
      SplitOneMore(ls[0], ls[1..]);
      assert ls == [ls[0]] + ls[1..];
    }
  }

  lemma SplitOneMore(l: Line, rest: seq<Line>)
    requires '\n' !in l && SplitNewlines(Join(rest)) == rest + [""]
    ensures SplitNewlines(Join([l] + rest)) == [l] + rest + [""]
  {
    assert ([l] + rest)[1..] == rest;
    SplitFirst(l, Join(rest));
  }

  lemma SectionOfJoin(ls: seq<Line>)
    requires OneLiners(ls)
    ensures SectionLines(Join(ls)) == ls
  {
    SplitJoin(ls);
  }

  lemma AppendIsAppend(a: seq<Line>, section: seq<Line>)
    requires OneLiners(section)
    ensures AppendText(Join(a), Join(section)) == Join(Append(a, section))
  {
    SectionOfJoin(section);
    var t := TrimBlank(section);
    var _, _ := TrimParts(section);
    if t != [] {
      JoinNewlinesIsJoin(t);
      assert JoinNewlines(t) != [] by {
        assert Blank("");
        assert t[0] != [];
      }
      JoinConcat(a, [""]);
      JoinConcat(a + [""], t);
      assert Join([""]) == "\n";
      assert a != [] ==> Join(a) != [];
      assert a == [] ==> Glue(a, t) == t;
    }
  }

  lemma CutTexts(ls: seq<Line>, cs: seq<TomlLine>)
    requires cs == Scan(ls)
    ensures Texts(cs[..SplitIndex(cs)]) == RootPart(ls) && Texts(cs[SplitIndex(cs)..]) == TablesPart(ls)
  {}

  lemma SplitTextIsSplit(ls: seq<Line>)
    requires OneLiners(ls)
    ensures RootText(Join(ls)) == Join(RootPart(DropReturns(ls)))
    ensures TablesText(Join(ls)) == Join(TablesPart(DropReturns(ls)))
  {
    JoinThenRead(ls);
    CutTexts(DropReturns(ls), Scan(DropReturns(ls)));
  }

  lemma PartsAreOneLiners(ls: seq<Line>)
    requires OneLiners(ls)
    ensures OneLiners(RootPart(ls)) && OneLiners(TablesPart(ls))
  {
    assert forall l :: l in RootPart(ls) || l in TablesPart(ls) ==> l in ls;
  }

  lemma DroppedAreOneLiners(ls: seq<Line>)
    requires OneLiners(ls)
    ensures OneLiners(DropReturns(ls))
  {
    forall l | l in DropReturns(ls)
      ensures '\n' !in l
    {
      var i :| 0 <= i < |ls| && DropReturns(ls)[i] == l;
      assert ls[i] in ls;
    }
  }

  lemma AssembleTextIsAssemble(a: seq<Line>, kept: seq<Line>)
    requires CleanLines(a) && OneLiners(kept)
    ensures AssembleText(Join(a), Join(kept)) == Join(Assemble(a, DropReturns(kept)))
  {
    assert OneLiners(a) by {
      assert forall l :: l in a ==> Clean(l);
    }
    NothingToDrop(a);
    SplitTextIsSplit(a);
    SplitTextIsSplit(kept);
    DroppedAreOneLiners(kept);
    PartsAreOneLiners(a);
    PartsAreOneLiners(DropReturns(kept));
    SectionsAppended(RootPart(a), RootPart(DropReturns(kept)), TablesPart(a), TablesPart(DropReturns(kept)));
  }

  lemma SectionsAppended(r: seq<Line>, kr: seq<Line>, t: seq<Line>, kt: seq<Line>)
    requires OneLiners(r) && OneLiners(kr) && OneLiners(t) && OneLiners(kt)
    ensures AppendText(AppendText(AppendText(AppendText("", Join(r)), Join(kr)), Join(t)), Join(kt))
      == Join(Append(Append(Append(Append([], r), kr), t), kt))
  {
    var x := Append([], r);
    var y := Append(x, kr);
    AppendIsAppend([], r);
    AppendIsAppend(x, kr);
    AppendIsAppend(y, t);
    AppendIsAppend(Append(y, t), kt);
  }

  // ---- the model in the fragment ----

  lemma {:induction false} SetRootElsewhere(table: Option<string>, cs: seq<TomlLine>, key: string, v: string)
    requires table.Some? || Lead(cs).Some?
    ensures SetRoot(table, cs, key, v) == Texts(cs)
    decreases |cs|
  {
    if cs != [] {
      SetRootElsewhere(Enter(table, cs[0]), cs[1..], key, v);
      assert Texts(cs) == [cs[0].text] + Texts(cs[1..]);
    }
  }

  lemma SetModelConcat(a: seq<Line>, b: seq<Line>, v: string)
    ensures SetModel(a + b, v) == SetModel(a, v) + SetModel(b, v)
  {}

  lemma SetRootFirst(r: seq<TomlLine>, x: seq<TomlLine>, v: string)
    requires NoHeader(r) && Stops(r) && !r[0].continuation
    ensures SetRoot(None, r + x, "model", v) == SetModel([r[0].text], v) + SetRoot(None, r[1..] + x, "model", v)
  {
    AssignsHere(r, x, "model");
  }

  lemma SetModelTexts(r: seq<TomlLine>, v: string)
    requires r != []
    ensures SetModel(Texts(r), v) == SetModel([r[0].text], v) + SetModel(Texts(r[1..]), v)
  {
    assert [r[0]] + r[1..] == r;
    TextsCons(r[0], r[1..]);
    SetModelConcat([r[0].text], Texts(r[1..]), v);
  }

  lemma Associate(a: seq<Line>, b: seq<Line>, c: seq<Line>)
    ensures a + (b + c) == (a + b) + c
  {}

  lemma {:induction false} SetRootPrefix(r: seq<TomlLine>, x: seq<TomlLine>, v: string)
    requires NoHeader(r) && (r == [] || Stops(r))
    requires forall i :: 0 <= i < |r| ==> !r[i].continuation
    ensures SetRoot(None, r + x, "model", v) == SetModel(Texts(r), v) + SetRoot(None, x, "model", v)
    decreases |r|
  {
    if r == [] {
      assert r + x == x;
    } else {
      SetRootFirst(r, x, v);
      SetRootPrefix(r[1..], x, v);
      SetModelTexts(r, v);
      Associate(SetModel([r[0].text], v), SetModel(Texts(r[1..]), v), SetRoot(None, x, "model", v));
    }
  }

  lemma SetRootBelowBlank(b: TomlLine, t: seq<TomlLine>, key: string, v: string)
    requires b.text == "" && !b.isHeader && Lead(t).Some?
    ensures SetRoot(None, [b] + t, key, v) == [""] + Texts(t)
  {
    assert KeyOf("").None?;
    assert ([b] + t)[1..] == t;
    SetRootElsewhere(None, t, key, v);
  }

  lemma SetRootOnFragment(f: Fragment, v: string)
    requires f.Valid()
    ensures SetRoot(None, Scan(f.AllLines()), "model", v) == WithModel(f, v).AllLines()
  {
    FragmentCloses(f);
    RootHeaderless(f, false);
    RootLinesScan(f.root, false);
    var r, b, t := Classify(FRESH, f.root, false), TomlLine("", false, "", false), Classify(FRESH, f.Tables(), false);
    TablesLead(f, FRESH, false);
    ClassifiedTexts(f.root, false);
    ClassifiedTexts(f.Tables(), false);
    SetRootAbove(r, b, t, v);
    WithModelLines(f, v);
  }

  lemma SetRootAbove(r: seq<TomlLine>, b: TomlLine, t: seq<TomlLine>, v: string)
    requires NoHeader(r) && (r == [] || Stops(r)) && forall i :: 0 <= i < |r| ==> !r[i].continuation
    requires b.text == "" && !b.isHeader && Lead(t).Some?
    ensures SetRoot(None, r + ([b] + t), "model", v) == SetModel(Texts(r), v) + ([""] + Texts(t))
  {
    SetRootPrefix(r, [b] + t, v);
    SetRootBelowBlank(b, t, "model", v);
  }

  lemma WithModelLines(f: Fragment, v: string)
    ensures WithModel(f, v).AllLines() == SetModel(f.root, v) + ([""] + f.Tables())
  {}

  lemma QuoteHasNoNewline(v: string)
    ensures forall c :: c in QuoteBody(v) ==> c != '\n'
  {
    if v != [] {
      QuoteCharEnds(v[0]);
      QuoteHasNoNewline(v[1..]);
    }
  }

  lemma SetValueClean(l: Line, v: string)
    requires Clean(l) && KeyOf(l).Some?
    ensures Clean(SetValue(l, v))
  {
    SetValueParts(l, v);
    QuoteHasNoNewline(v);
    var eq, l' := IndexFrom(l, '=', 0), SetValue(l, v);
    assert l'[|l'| - 1] == '"';
    forall c | c in l'
      ensures c != '\n'
    {
      assert c in l[..eq + 1] || c == ' ' || c in Quote(v);
    }
  }

  lemma WithModelClean(f: Fragment, v: string)
    requires CleanLines(f.AllLines())
    ensures CleanLines(WithModel(f, v).AllLines())
  {
    var r := SetModel(f.root, v);
    forall l | l in WithModel(f, v).AllLines()
      ensures Clean(l)
    {
      if l in r {
        var i :| 0 <= i < |r| && r[i] == l;
        assert f.root[i] in f.AllLines();
        if KeyOf(f.root[i]) == Some("model") {
          SetValueClean(f.root[i], v);
        }
      } else {
        assert l in f.AllLines();
      }
    }
  }

  /** The model is read before the returns are dropped. */
  lemma ChosenDropped(f: Fragment, ls: seq<Line>, allowed: seq<string>)
    ensures Chosen(f, DropReturns(ls), allowed) == Chosen(f, ls, allowed)
  {
    ScanDropped(ls);
    RootStringDropped(None, Scan(ls), "model");
  }

  lemma FragmentScannable(f: Fragment)
    requires CleanLines(f.AllLines())
    ensures Scannable(Join(f.AllLines())) <==> Fits(f.AllLines())
  {
    assert forall l :: l in f.AllLines() ==> Clean(l);
    JoinScannable(f.AllLines());
  }

  lemma ChosenTextIsChosen(existing: string, f: Fragment, allowed: seq<string>)
    requires f.Valid() && CleanLines(f.AllLines()) && Scannable(existing) && Fits(f.AllLines())
    ensures var f1 := Chosen(f, Lines(existing), allowed);
      ChosenText(existing, Join(f.AllLines()), allowed) == Join(f1.AllLines()) && CleanLines(f1.AllLines())
  {
    FragmentScannable(f);
    var m := KeptModel(Lines(existing), allowed);
    if m.Some? {
      CleanRoundTrip(f.AllLines());
      SetRootOnFragment(f, m.value);
      WithModelClean(f, m.value);
    }
  }

  // ---- a blank file ----

  lemma {:induction false} BlankTextBlankLines(text: string)
    requires forall c :: c in text ==> IsSpace(c)
    ensures AllBlank(Lines(text))
    decreases |text|
  {
    if text != [] {
      var k := IndexFrom(text, '\n', 0);
      var l := DropCR(text[..k]);
      assert text[..k] == text || k < |text|;
      assert forall c :: c in l ==> c in text;
      SpacesAreBlank(l);
      if k < |text| {
        BlankTextBlankLines(text[k + 1..]);
      }
    }
  }

  lemma {:induction false} IndentOfSpaces(l: Line)
    requires forall c :: c in l ==> IsSpace(c)
    ensures Indent(l) == |l|
  {
    if l != [] {
      assert l[0] in l;
      IndentOfSpaces(l[1..]);
    }
  }

  lemma SpacesAreBlank(l: Line)
    requires forall c :: c in l ==> IsSpace(c)
    ensures Blank(l)
  {
    IndentOfSpaces(l);
  }

  lemma {:induction false} BlankLinesAssignNothing(ls: seq<Line>)
    requires AllBlank(ls)
    ensures RootString(None, Classify(FRESH, ls, false), "model").None?
    ensures Texts(Strip(AT_ROOT, Classify(FRESH, ls, false))) == ls
    decreases |ls|
  {
    if ls != [] {
      assert ls[0] in ls;
      BlankKeepsState(FRESH, ls[0]);
      BlanksKeepState(FRESH, ls, false);
      var cs := Classify(FRESH, ls, false);
      assert cs[1..] == Classify(FRESH, ls[1..], false);
      NoHeaderNoLead(cs);
      BlankLinesAssignNothing(ls[1..]);
      StripCons(AT_ROOT, cs);
      TextsCons(cs[0], Strip(AT_ROOT, cs[1..]));
    }
  }

  lemma TrimAllBlank(ls: seq<Line>)
    requires AllBlank(ls)
    ensures TrimBlank(ls) == []
  {
    var pre, post := TrimParts(ls);
    assert forall l :: l in TrimBlank(ls) ==> l in ls;
  }

  lemma BlankParts(ls: seq<Line>)
    requires AllBlank(ls)
    ensures PartsOf(ls) == Parts([], [])
  {
    assert forall l :: l in RootPart(ls) || l in TablesPart(ls) ==> l in ls;
    TrimAllBlank(RootPart(ls));
    TrimAllBlank(TablesPart(ls));
  }

  /** A file of blank lines merges to the fragment itself. */
  lemma MergeIntoBlank(existing: seq<Line>, f: Fragment, allowed: seq<string>)
    requires AllBlank(existing)
    ensures Chosen(f, existing, allowed) == f && Merge(existing, f, allowed) == f.AllLines()
  {
    BlanksKeepState(FRESH, existing, false);
    BlankLinesAssignNothing(existing);
    BlankParts(existing);
  }

  lemma BlanksDropped(ls: seq<Line>)
    requires AllBlank(ls)
    ensures AllBlank(DropReturns(ls))
  {
    forall l | l in DropReturns(ls)
      ensures Blank(l)
    {
      var i :| 0 <= i < |ls| && DropReturns(ls)[i] == l;
      SameReading(ls[i]);
      assert ls[i] in ls;
    }
  }

  // ---- the merge on contents is the merge on lines ----

  /** What a merge writes over some content: the fragment as delivered when the
      content or the fragment cannot be scanned, and with the kept model in it when
      only that cannot be; else the merge of the lines. */
  function MergedText(existing: string, f: Fragment, allowed: seq<string>): string {
    var ls := ReadBack(existing);
    if !Scannable(existing) || !Fits(f.AllLines()) then Join(f.AllLines())
    else if !Fits(Chosen(f, ls, allowed).AllLines()) then Join(Chosen(f, ls, allowed).AllLines())
    else Join(Merge(ls, f, allowed))
  }

  /** For any content whatsoever. */
  lemma MergeTextIsMerge(existing: string, f: Fragment, allowed: seq<string>)
    requires f.Valid() && CleanLines(f.AllLines())
    ensures MergeText(Some(existing), Join(f.AllLines()), allowed) == MergedText(existing, f, allowed)
  {
    FragmentScannable(f);
    if TrimSpace(existing) == [] {
      TrimmedStart(existing);
      IndentMeaning(existing);
      BlankTextBlankLines(existing);
      BlanksDropped(Lines(existing));
      MergeIntoBlank(ReadBack(existing), f, allowed);
    } else if Scannable(existing) && Fits(f.AllLines()) {
      MergeIntoLines(existing, f, allowed);
    }
  }

  lemma KeptScannable(existing: string)
    requires Scannable(existing)
    ensures OneLiners(Kept(Lines(existing))) && Scannable(StripText(existing))
  {
    LinesHaveNoNewline(existing);
    KeptMembers(Lines(existing));
    ScannedLinesFit(existing);
    JoinScannable(Kept(Lines(existing)));
  }

  lemma MergeIntoLines(existing: string, f: Fragment, allowed: seq<string>)
    requires f.Valid() && CleanLines(f.AllLines()) && Scannable(existing) && Fits(f.AllLines())
    ensures MergeScanned(existing, ChosenText(existing, Join(f.AllLines()), allowed))
      == MergedText(existing, f, allowed)
  {
    var ls := Lines(existing);
    var f1 := Chosen(f, ls, allowed);
    ChosenTextIsChosen(existing, f, allowed);
    ChosenDropped(f, ls, allowed);
    FragmentScannable(f1);
    KeptScannable(existing);
    if Fits(f1.AllLines()) {
      ChosenValid(f, ls, allowed);
      KeptDropped(ls);
      AssembleTextIsAssemble(f1.AllLines(), Kept(ls));
      AssembleIsAssembled(f1, Kept(ReadBack(existing)));
    }
  }

  // ---- redelivery of contents ----

  /** No surviving line still ends in a carriage return. */
  predicate ReturnsGone(existing: seq<Line>) {
    CleanLines(PartsOf(Kept(existing)).root) && CleanLines(PartsOf(Kept(existing)).tables)
  }

  lemma ChosenClean(f: Fragment, existing: seq<Line>, allowed: seq<string>)
    requires CleanLines(f.AllLines())
    ensures CleanLines(Chosen(f, existing, allowed).AllLines())
  {
    var m := KeptModel(existing, allowed);
    if m.Some? {
      WithModelClean(f, m.value);
    }
  }

  lemma AssembledMembers(f: Fragment, k: Parts)
    ensures forall l :: l in Assembled(f, k) <==> l in f.AllLines() || l in k.root || l in k.tables
  {
    assert f.AllLines()[|f.root|] == "";
  }

  lemma TrimMembers(ls: seq<Line>)
    ensures forall l :: l in TrimBlank(ls) ==> l in ls
  {
    var pre, post := TrimParts(ls);
  }

  lemma PartsMembers(kept: seq<Line>)
    ensures forall l :: l in PartsOf(kept).root || l in PartsOf(kept).tables ==> l in kept
  {
    TrimMembers(RootPart(kept));
    TrimMembers(TablesPart(kept));
    assert forall l :: l in RootPart(kept) || l in TablesPart(kept) ==> l in kept;
  }

  /** A merged line is the fragment's or the file's. */
  lemma MergedMembers(existing: seq<Line>, f: Fragment, allowed: seq<string>)
    requires CleanLines(f.AllLines())
    ensures forall l :: l in Merge(existing, f, allowed) ==> Clean(l) || l in existing
    ensures CleanLines(Merge(existing, f, allowed)) <==> ReturnsGone(existing)
  {
    ChosenClean(f, existing, allowed);
    AssembledMembers(Chosen(f, existing, allowed), PartsOf(Kept(existing)));
    PartsMembers(Kept(existing));
    KeptMembers(existing);
  }

  lemma MergedOneLiners(existing: seq<Line>, f: Fragment, allowed: seq<string>)
    requires CleanLines(f.AllLines()) && OneLiners(existing)
    ensures OneLiners(Merge(existing, f, allowed))
  {
    MergedMembers(existing, f, allowed);
  }

  /** Content that fits into the scanner is merged into content that does. */
  lemma MergedFits(existing: seq<Line>, f: Fragment, allowed: seq<string>)
    requires Fits(existing) && Fits(Chosen(f, existing, allowed).AllLines())
    ensures Fits(Merge(existing, f, allowed))
  {
    AssembledMembers(Chosen(f, existing, allowed), PartsOf(Kept(existing)));
    PartsMembers(Kept(existing));
    KeptMembers(existing);
  }

  lemma ReadBackFits(text: string)
    requires Scannable(text)
    ensures Fits(ReadBack(text)) && OneLiners(ReadBack(text))
  {
    var ls := Lines(text);
    ScannedLinesFit(text);
    LinesHaveNoNewline(text);
    DroppedAreOneLiners(ls);
    forall l | l in DropReturns(ls)
      ensures Bytes(l) < LINE_LIMIT
    {
      var i :| 0 <= i < |ls| && DropReturns(ls)[i] == l;
      DropCRBytes(ls[i]);
      assert ls[i] in ls;
    }
  }

  /** What a second merge of the same fragment makes of what the first wrote. */
  lemma MergedAgain(existing: seq<Line>, f: Fragment, allowed: seq<string>)
    requires f.Valid() && CleanLines(f.AllLines()) && OneLiners(existing)
    requires Fits(f.AllLines()) && Fits(Merge(existing, f, allowed))
    requires Fits(Chosen(f, Merge(existing, f, allowed), allowed).AllLines())
    ensures var once := Merge(existing, f, allowed);
      MergeText(Some(Join(once)), Join(f.AllLines()), allowed) == Join(once)
      <==> Merge(once, f, allowed) == once && ReturnsGone(existing)
  {
    var once := Merge(existing, f, allowed);
    var read := DropReturns(DropReturns(once));
    MergedMembers(existing, f, allowed);
    MergedOneLiners(existing, f, allowed);
    JoinScannable(once);
    JoinThenRead(once);
    MergeTextIsMerge(Join(once), f, allowed);
    ChosenDropped(f, once, allowed);
    ChosenDropped(f, DropReturns(once), allowed);
    SameLines(existing, once, read, f, allowed);
  }

  lemma SameLines(existing: seq<Line>, once: seq<Line>, read: seq<Line>, f: Fragment, allowed: seq<string>)
    requires CleanLines(f.AllLines()) && OneLiners(once) && read == DropReturns(DropReturns(once))
    requires CleanLines(once) <==> ReturnsGone(existing)
    ensures Join(Merge(read, f, allowed)) == Join(once) <==> Merge(once, f, allowed) == once && ReturnsGone(existing)
  {
    DroppedAreOneLiners(once);
    DroppedAreOneLiners(DropReturns(once));
    MergedOneLiners(read, f, allowed);
    if ReturnsGone(existing) {
      NothingToDrop(once);
    } else {
      MergedMembers(read, f, allowed);
      ReturnsGoDown(once, Merge(read, f, allowed));
    }
    if Join(Merge(read, f, allowed)) == Join(once) {
      JoinInjective(Merge(read, f, allowed), once);
    }
  }

  /** The fragment alone is not changed by its own delivery. */
  lemma FragmentTwice(f: Fragment, allowed: seq<string>)
    requires f.Valid() && Canonical(f) && CleanLines(f.AllLines())
    ensures MergeText(Some(Join(f.AllLines())), Join(f.AllLines()), allowed) == Join(f.AllLines())
  {
    MergeTextIsMerge(Join(f.AllLines()), f, allowed);
    if Fits(f.AllLines()) {
      OwnLines(f, allowed);
      CleanRoundTrip(f.AllLines());
      NothingToDrop(f.AllLines());
    }
  }

  lemma OwnLines(f: Fragment, allowed: seq<string>)
    requires f.Valid() && Canonical(f)
    ensures Chosen(f, f.AllLines(), allowed) == f && Merge(f.AllLines(), f, allowed) == f.AllLines()
  {
    MergeIntoBlank([], f, allowed);
    NothingKept();
    BlankParts([]);
    SurvivingPartsSound([]);
    ChosenAgain([], f, allowed, PartsOf([]), false);
    Redelivery([], f, allowed);
  }

  lemma NothingKept()
    ensures Kept([]) == [] && Closes([]) && Whole([]) && Settled([])
  {
    CleanIsWhole([]);
    ClosedIsSettled([]);
  }

  /** When a second delivery of the fragment repeats the first: at once for what is
      not merged; else when the file is settled, the kept model fits and can be read
      back, and no surviving line still ends in a return. */
  predicate Repeats(existing: string, f: Fragment, allowed: seq<string>) {
    Scannable(existing) && Fits(f.AllLines()) ==>
      var ls := ReadBack(existing);
      && Fits(Chosen(f, ls, allowed).AllLines())
      && Settled(ls) && !LosesChoice(ls, f, allowed) && ReturnsGone(ls)
  }

  /** What a merge into content asks for. */
  ghost predicate Mergeable(existing: string, f: Fragment) {
    Scannable(existing) ==>
      Whole(ReadBack(existing)) && f.ValidFor(!Closes(Kept(ReadBack(existing))))
  }

  lemma ChosenAgainFits(ls: seq<Line>, f: Fragment, allowed: seq<string>)
    requires Whole(ls) && f.ValidFor(!Closes(Kept(ls))) && Canonical(f)
    requires Fits(f.AllLines()) && Fits(Chosen(f, ls, allowed).AllLines())
    ensures Fits(Chosen(f, Merge(ls, f, allowed), allowed).AllLines())
  {
    SurvivingPartsSound(ls);
    ChosenAgain(ls, f, allowed, PartsOf(Kept(ls)), !Closes(Kept(ls)));
  }

  /** Redelivery writes the same bytes exactly when it repeats the first delivery. */
  lemma RedeliveryOfContents(existing: string, f: Fragment, allowed: seq<string>)
    requires f.Valid() && Canonical(f) && CleanLines(f.AllLines()) && Mergeable(existing, f)
    ensures var incoming := Join(f.AllLines());
      var merged := MergeText(Some(existing), incoming, allowed);
      MergeText(Some(merged), incoming, allowed) == merged <==> Repeats(existing, f, allowed)
  {
    var ls := ReadBack(existing);
    MergeTextIsMerge(existing, f, allowed);
    if !Scannable(existing) || !Fits(f.AllLines()) {
      FragmentTwice(f, allowed);
    } else if !Fits(Chosen(f, ls, allowed).AllLines()) {
      TooLongOnce(existing, f, allowed);
    } else {
      ReadBackFits(existing);
      MergedFits(ls, f, allowed);
      ChosenAgainFits(ls, f, allowed);
      MergedAgain(ls, f, allowed);
      Redelivery(ls, f, allowed);
    }
  }

  /** A model too long to be read back once it is quoted is written once. */
  lemma TooLongOnce(existing: string, f: Fragment, allowed: seq<string>)
    requires f.Valid() && CleanLines(f.AllLines()) && Scannable(existing) && Fits(f.AllLines())
    requires !Fits(Chosen(f, ReadBack(existing), allowed).AllLines())
    ensures var incoming := Join(f.AllLines());
      var merged := MergeText(Some(existing), incoming, allowed);
      MergeText(Some(merged), incoming, allowed) == incoming != merged
  {
    var f1 := Chosen(f, ReadBack(existing), allowed);
    MergeTextIsMerge(existing, f, allowed);
    ChosenClean(f, ReadBack(existing), allowed);
    FragmentScannable(f);
    FragmentScannable(f1);
    MergeTextIsMerge(Join(f1.AllLines()), f, allowed);
  }
}
