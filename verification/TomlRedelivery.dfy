/** Reading a merged file again: how it is scanned, stripped and split. */
module TomlRedelivery {
  import opened Text
  import opened TomlScan
  import opened TomlSections
  import opened TomlStrip
  import opened TomlStability
  import opened TomlAssembly

  /** A section with its separating blank line, when there is anything in it. */
  function Sep(ls: seq<Line>): seq<Line> {
    if ls == [] then [] else [""] + ls
  }

  function Assembled(f: Fragment, k: Parts): seq<Line> {
    f.root + (Sep(k.root) + ([""] + f.Tables() + Sep(k.tables)))
  }

  // ---- the delivered sections ----

  lemma ManagedKeyIsNotFiller(l: Line)
    requires ManagedKey(l)
    ensures !Filler(l)
  {
    TrimmedStart(l);
  }

  lemma {:induction false} RootLinesScan(ls: seq<Line>, recover: bool)
    requires forall l :: l in ls ==> RootLine(l)
    ensures EndState(FRESH, ls, recover) == FRESH
    ensures forall i :: 0 <= i < |ls| ==> Classify(FRESH, ls, recover)[i] == TomlLine(ls[i], false, "", false)
    decreases |ls|
  {
    if ls != [] {
      assert ls[0] in ls;
      RootLinesScan(ls[1..], recover);
    }
  }

  /** Lines that each assign a managed key at the root are all removed. */
  lemma {:induction false} RootLinesStrip(s: StripState, cs: seq<TomlLine>)
    requires s.table.None?
    requires forall i :: 0 <= i < |cs| ==> !cs[i].isHeader && !cs[i].continuation && ManagedKey(cs[i].text)
    ensures Strip(s, cs) == []
    ensures cs != [] ==> StripAfter(s, cs) == StripState(None, true)
    decreases |cs|
  {
    if cs != [] {
      NoHeaderNoLead(cs);
      RootLinesStrip(StripState(None, true), cs[1..]);
    }
  }

  /** Plain scanning leaves every open value above the delivered table open. */
  lemma TablesAreNeutral(f: Fragment, st: ScanState)
    requires f.Valid() && (st == FRESH || f.Sealed())
    ensures EndState(st, f.Tables(), false) == st
  {
    FillersKeepState(st, f.notes, false);
    assert NextState(st, f.header, false) == st;
    NeutralParts(f.notes, f.header, f.body, st);
  }

  lemma NeutralParts(notes: seq<Line>, header: Line, body: seq<Line>, st: ScanState)
    requires EndState(st, notes, false) == st && NextState(st, header, false) == st && EndState(st, body, false) == st
    ensures EndState(st, notes + [header] + body, false) == st
  {
    assert notes + [header] + body == notes + ([header] + body);
    EndStateConcat(st, notes, [header] + body, false);
    OneStep(st, header, body, false);
  }

  lemma HeaderAndBodyScan(header: Line, body: seq<Line>, st: ScanState, recover: bool)
    requires Shape(header) == Some(MANAGED_TABLE) && forall l :: l in body ==> Shape(l).None?
    requires EndState(FRESH, body, false) == FRESH && (recover || st == FRESH)
    ensures EndState(st, [header] + body, recover) == FRESH
    ensures Classify(st, [header] + body, recover)
            == [TomlLine(header, true, MANAGED_TABLE, false)] + Classify(FRESH, body, recover)
  {
    assert ([header] + body)[1..] == body;
    NoShapeSamePass(FRESH, body);
  }

  lemma NotesAboveTable(notes: seq<Line>, table: seq<Line>, st: ScanState, recover: bool)
    requires CommentsClean(notes) && forall l :: l in notes ==> Filler(l)
    ensures EndState(st, notes + table, recover) == EndState(st, table, recover)
    ensures Classify(st, notes + table, recover) == Classify(st, notes, recover) + Classify(st, table, recover)
    ensures NoHeader(Classify(st, notes, recover))
  {
    ClassifyConcat(st, notes, table, recover);
    FillersKeepState(st, notes, recover);
  }

  /** Where the table's header is recognised, its comments and body hold no other. */
  lemma TablesScan(f: Fragment, st: ScanState, recover: bool)
    requires f.Valid() && (recover || st == FRESH)
    ensures EndState(st, f.Tables(), recover) == FRESH
    ensures var cs := Classify(st, f.Tables(), recover);
      && cs == Classify(st, f.notes, recover) + ([TomlLine(f.header, true, MANAGED_TABLE, false)]
               + Classify(FRESH, f.body, recover))
      && NoHeader(Classify(st, f.notes, recover)) && NoHeader(Classify(FRESH, f.body, recover))
  {
    assert f.Tables() == f.notes + ([f.header] + f.body);
    assert EndState(FRESH, f.body, false) == FRESH;
    NotesAboveTable(f.notes, [f.header] + f.body, st, recover);
    HeaderAndBodyScan(f.header, f.body, st, recover);
    BodyHasNoHeader(FRESH, f.body, recover);
  }

  lemma BodyHasNoHeader(st: ScanState, ls: seq<Line>, recover: bool)
    requires forall l :: l in ls ==> Shape(l).None?
    ensures NoHeader(Classify(st, ls, recover))
  {
    forall i | 0 <= i < |ls|
      ensures !Classify(st, ls, recover)[i].isHeader
    {
      assert ls[i] in ls;
      if Classify(st, ls, recover)[i].isHeader {
        HeaderShape(st, ls, recover, i);
      }
    }
  }

  /** Comments that touch a header lead to it. */
  lemma {:induction false} CommentsLead(a: seq<TomlLine>, b: seq<TomlLine>)
    requires forall i :: 0 <= i < |a| ==> !a[i].isHeader && Comment(a[i].text)
    requires b != [] && b[0].isHeader
    ensures Lead(a + b) == Some(b[0].header)
  {
    if a == [] {
      assert a + b == b;
    } else {
      assert (a + b)[1..] == a[1..] + b;
      CommentsLead(a[1..], b);
    }
  }

  lemma TablesLead(f: Fragment, st: ScanState, recover: bool)
    requires f.Valid() && (recover || st == FRESH)
    ensures Lead(Classify(st, f.Tables(), recover)) == Some(MANAGED_TABLE)
  {
    TablesScan(f, st, recover);
    CommentsLead(Classify(st, f.notes, recover),
      [TomlLine(f.header, true, MANAGED_TABLE, false)] + Classify(FRESH, f.body, recover));
  }

  lemma {:induction false} ManagedBodyStrip(s: StripState, cs: seq<TomlLine>)
    requires s.table == Some(MANAGED_TABLE) && NoHeader(cs)
    ensures Strip(s, cs) == [] && StripAfter(s, cs) == s
    decreases |cs|
  {
    if cs != [] {
      NoHeaderNoLead(cs);
      ManagedBodyStrip(s, cs[1..]);
    }
  }

  /** The run above the managed header, the header and its body all go. */
  lemma {:induction false} ManagedTableStrip(s: StripState, a: seq<TomlLine>, h: TomlLine, b: seq<TomlLine>)
    requires NoHeader(a) && NoHeader(b) && h.isHeader && !h.continuation && h.header == MANAGED_TABLE
    requires Lead(a + ([h] + b)) == Some(MANAGED_TABLE)
    ensures Strip(s, a + ([h] + b)) == []
    ensures StripAfter(s, a + ([h] + b)) == StripState(Some(MANAGED_TABLE), false)
    decreases |a|
  {
    var cs := a + ([h] + b);
    if a == [] {
      assert cs == [h] + b;
      assert cs[1..] == b;
      ManagedBodyStrip(StripState(Some(MANAGED_TABLE), false), b);
    } else {
      assert cs[1..] == a[1..] + ([h] + b);
      ManagedTableStrip(StripStep(s, cs).1, a[1..], h, b);
    }
  }

  // ---- the surviving sections ----

  /** No line of the section assigns a managed key. */
  predicate RootClean(cs: seq<TomlLine>) {
    forall i :: 0 <= i < |cs| && !cs[i].continuation ==> !ManagedKey(cs[i].text)
  }

  lemma {:induction false} KeepsRoot(cs: seq<TomlLine>)
    requires NoHeader(cs) && RootClean(cs)
    ensures Strip(AT_ROOT, cs) == cs && StripAfter(AT_ROOT, cs) == AT_ROOT
    decreases |cs|
  {
    if cs != [] {
      NoHeaderNoLead(cs);
      assert StripStep(AT_ROOT, cs) == (true, AT_ROOT);
      KeepsRoot(cs[1..]);
      assert [cs[0]] + cs[1..] == cs;
    }
  }

  lemma {:induction false} KeepsTables(s: StripState, cs: seq<TomlLine>)
    requires !s.drop && NoManagedHeader(cs)
    requires (s.table.Some? && s.table != Some(MANAGED_TABLE)) || (cs != [] ==> Lead(cs).Some?)
    ensures Strip(s, cs) == cs
    decreases |cs|
  {
    if cs != [] {
      if Lead(cs).Some? {
        LeadIsAHeader(cs);
      }
      var (keep, s') := StripStep(s, cs);
      assert keep && !s'.drop;
      KeepsTables(s', cs[1..]);
      assert [cs[0]] + cs[1..] == cs;
    }
  }

  // ---- the scan of the merged file ----

  lemma SepScan(st: ScanState, ls: seq<Line>, recover: bool)
    ensures EndState(st, Sep(ls), recover) == EndState(st, ls, recover)
    ensures ls != [] ==>
      Classify(st, Sep(ls), recover) == [TomlLine("", false, "", !st.Fresh())] + Classify(st, ls, recover)
  {
    BlankKeepsState(st, "");
    if ls != [] {
      assert ([""] + ls)[1..] == ls;
    }
  }

  lemma AssembledCloses(f: Fragment, k: Parts, recover: bool)
    requires f.ValidFor(recover) && Sound(k, recover)
    ensures Closes(Assembled(f, k)) == !recover
  {
    AssembledEnds(f, k);
  }

  /** A plain pass leaves the assembled file where it leaves the two parts of it. */
  lemma AssembledEnds(f: Fragment, k: Parts)
    requires f.ValidFor(EndState(FRESH, k.root, false) != FRESH)
    ensures EndState(FRESH, Assembled(f, k), false) == EndState(EndState(FRESH, k.root, false), k.tables, false)
  {
    var s := EndState(FRESH, k.root, false);
    RootLinesScan(f.root, false);
    ClassifyConcat(FRESH, f.root, Sep(k.root) + ([""] + f.Tables() + Sep(k.tables)), false);
    SepScan(FRESH, k.root, false);
    ClassifyConcat(FRESH, Sep(k.root), [""] + f.Tables() + Sep(k.tables), false);
    ClassifyConcat(s, [""] + f.Tables(), Sep(k.tables), false);
    SepScan(s, f.Tables(), false);
    assert Sep(f.Tables()) == [""] + f.Tables();
    TablesAreNeutral(f, s);
    SepScan(s, k.tables, false);
  }

  /** The merged file is read section by section. */
  lemma AssembledScan(f: Fragment, k: Parts, recover: bool)
    requires f.ValidFor(recover) && Sound(k, recover)
    ensures Scan(Assembled(f, k))
      == Classify(FRESH, f.root, recover) + (Classify(FRESH, Sep(k.root), recover)
         + (Classify(EndState(FRESH, k.root, recover), [""] + f.Tables(), recover)
            + Classify(FRESH, Sep(k.tables), recover)))
  {
    AssembledCloses(f, k, recover);
    var st := EndState(FRESH, k.root, recover);
    RootLinesScan(f.root, recover);
    ClassifyConcat(FRESH, f.root, Sep(k.root) + ([""] + f.Tables() + Sep(k.tables)), recover);
    SepScan(FRESH, k.root, recover);
    ClassifyConcat(FRESH, Sep(k.root), [""] + f.Tables() + Sep(k.tables), recover);
    ClassifyConcat(st, [""] + f.Tables(), Sep(k.tables), recover);
    SepScan(st, f.Tables(), recover);
    assert Sep(f.Tables()) == [""] + f.Tables();
    TablesScan(f, st, recover);
  }

  // ---- the strip of the merged file ----

  /** The delivered table below its separating blank line. */
  function TablesRun(f: Fragment, st: ScanState, recover: bool): seq<TomlLine> {
    Classify(st, [""] + f.Tables(), recover)
  }

  lemma TablesRunIs(f: Fragment, st: ScanState, recover: bool)
    ensures TablesRun(f, st, recover)
            == [TomlLine("", false, "", !st.Fresh())] + Classify(st, f.Tables(), recover)
  {
    SepScan(st, f.Tables(), recover);
  }

  lemma TablesStop(f: Fragment, st: ScanState, recover: bool)
    requires f.Valid() && (recover || st == FRESH)
    ensures Stops(Classify(st, f.Tables(), recover)) && Stops(TablesRun(f, st, recover))
  {
    TablesEnd(f, st, recover);
    TablesRunIs(f, st, recover);
    StopsAbove([TomlLine("", false, "", !st.Fresh())], Classify(st, f.Tables(), recover));
  }

  lemma StopsAbove(a: seq<TomlLine>, b: seq<TomlLine>)
    requires Stops(b)
    ensures Stops(a + b)
  {
    assert (a + b)[|a + b| - 1] == b[|b| - 1];
  }

  lemma TablesEnd(f: Fragment, st: ScanState, recover: bool)
    requires f.Valid() && (recover || st == FRESH)
    ensures Stops(Classify(st, f.Tables(), recover))
  {
    var cs := Classify(st, f.Tables(), recover);
    if f.body == [] {
      TablesScan(f, st, recover);
      assert cs[|cs| - 1] == TomlLine(f.header, true, MANAGED_TABLE, false);
    } else {
      assert cs[|cs| - 1].text == f.Tables()[|f.Tables()| - 1] == f.body[|f.body| - 1];
    }
  }

  lemma BlankEndsManagedRun(b: TomlLine, t: seq<TomlLine>, rest: seq<TomlLine>)
    requires !b.isHeader && b.text == "" && Lead(t) == Some(MANAGED_TABLE) && Stops(t)
    ensures Lead([b] + t + rest).None?
  {
    LeadConcat(t, rest);
    assert [b] + t + rest == [b] + (t + rest);
    assert ([b] + (t + rest))[1..] == t + rest;
    assert Blank("") && !Comment("");
  }

  /** Nothing above the blank line leads up to the managed header. */
  lemma TablesRunLeadsNowhere(f: Fragment, st: ScanState, recover: bool, rest: seq<TomlLine>)
    requires f.Valid() && (recover || st == FRESH)
    ensures Lead(TablesRun(f, st, recover) + rest).None?
  {
    TablesRunIs(f, st, recover);
    TablesLead(f, st, recover);
    TablesStop(f, st, recover);
    BlankEndsManagedRun(TomlLine("", false, "", !st.Fresh()), Classify(st, f.Tables(), recover), rest);
  }

  lemma TablesRunStrip(f: Fragment, st: ScanState, recover: bool, s: StripState)
    requires f.Valid() && (recover || st == FRESH)
    requires s.table.None? && (s.drop ==> st.Fresh())
    ensures Strip(s, TablesRun(f, st, recover)) == [TomlLine("", false, "", !st.Fresh())]
    ensures StripAfter(s, TablesRun(f, st, recover)) == StripState(Some(MANAGED_TABLE), false)
  {
    var cs := TablesRun(f, st, recover);
    TablesRunIs(f, st, recover);
    TablesRunLeadsNowhere(f, st, recover, []);
    assert cs + [] == cs;
    assert StripStep(s, cs) == (true, AT_ROOT);
    assert cs[1..] == Classify(st, f.Tables(), recover);
    TablesScan(f, st, recover);
    TablesLead(f, st, recover);
    ManagedTableStrip(AT_ROOT, Classify(st, f.notes, recover), TomlLine(f.header, true, MANAGED_TABLE, false),
      Classify(FRESH, f.body, recover));
  }

  lemma SepRootStrip(k: Parts, recover: bool)
    requires Sound(k, recover) && RootClean(Classify(FRESH, k.root, recover))
    ensures var cs := Classify(FRESH, Sep(k.root), recover);
      && Strip(StripState(None, true), cs) == cs
      && StripAfter(StripState(None, true), cs) == if k.root == [] then StripState(None, true) else AT_ROOT
  {
    if k.root != [] {
      SepScan(FRESH, k.root, recover);
      var cs := Classify(FRESH, Sep(k.root), recover);
      NoHeaderNoLead(cs);
      assert StripStep(StripState(None, true), cs) == (true, AT_ROOT);
      KeepsRoot(Classify(FRESH, k.root, recover));
    }
  }

  lemma SepTablesStrip(k: Parts, recover: bool)
    requires Sound(k, recover)
    ensures var cs := Classify(FRESH, Sep(k.tables), recover);
      Strip(StripState(Some(MANAGED_TABLE), false), cs) == cs
  {
    if k.tables != [] {
      SepScan(FRESH, k.tables, recover);
      BelowBlankKept(TomlLine("", false, "", false), Classify(FRESH, k.tables, recover));
    }
  }

  lemma BelowBlankKept(b: TomlLine, t: seq<TomlLine>)
    requires b == TomlLine("", false, "", false) && NoManagedHeader(t) && Lead(t).Some?
    ensures Strip(StripState(Some(MANAGED_TABLE), false), [b] + t) == [b] + t
  {
    LeadIsAHeader(t);
    assert ([b] + t)[1..] == t;
    KeepsTables(StripState(Some(MANAGED_TABLE), false), [b] + t);
  }

  lemma RootStops(f: Fragment, recover: bool)
    requires f.Valid()
    ensures Stops(Classify(FRESH, f.root, recover))
    ensures Strip(AT_ROOT, Classify(FRESH, f.root, recover)) == []
    ensures StripAfter(AT_ROOT, Classify(FRESH, f.root, recover)) == StripState(None, true)
  {
    var cs := Classify(FRESH, f.root, recover);
    RootLinesScan(f.root, recover);
    forall i | 0 <= i < |cs|
      ensures ManagedKey(cs[i].text)
    {
      assert f.root[i] in f.root;
    }
    RootLinesStrip(AT_ROOT, cs);
    ManagedKeyIsNotFiller(cs[|cs| - 1].text);
  }

  /** The strip of the merged file, section by section, whatever the root holds. */
  lemma StripBySection(f: Fragment, k: Parts, recover: bool)
    requires f.ValidFor(recover) && Sound(k, recover)
    ensures var st := EndState(FRESH, k.root, recover);
      var sep, run, tables := Classify(FRESH, Sep(k.root), recover), TablesRun(f, st, recover),
        Classify(FRESH, Sep(k.tables), recover);
      var s := StripAfter(StripState(None, true), sep);
      Strip(AT_ROOT, Scan(Assembled(f, k)))
      == Strip(StripState(None, true), sep) + (Strip(s, run) + Strip(StripAfter(s, run), tables))
  {
    AssembledScan(f, k, recover);
    var st := EndState(FRESH, k.root, recover);
    var sep, run, tables := Classify(FRESH, Sep(k.root), recover), TablesRun(f, st, recover),
      Classify(FRESH, Sep(k.tables), recover);
    RootStops(f, recover);
    StripConcat(AT_ROOT, Classify(FRESH, f.root, recover), sep + (run + tables));
    TablesRunLeadsNowhere(f, st, recover, tables);
    StripConcat(StripState(None, true), sep, run + tables);
    TablesStop(f, st, recover);
    StripConcat(StripAfter(StripState(None, true), sep), run, tables);
  }

  function Survivors(k: Parts): seq<Line> {
    Sep(k.root) + ([""] + Sep(k.tables))
  }

  /** Stripping a merged file gives back what survived the first time. */
  lemma AssembledKept(f: Fragment, k: Parts, recover: bool)
    requires f.ValidFor(recover) && Sound(k, recover) && RootClean(Classify(FRESH, k.root, recover))
    ensures Kept(Assembled(f, k)) == Survivors(k)
  {
    var st := EndState(FRESH, k.root, recover);
    StripBySection(f, k, recover);
    SepRootStrip(k, recover);
    var s := if k.root == [] then StripState(None, true) else AT_ROOT;
    TablesRunStrip(f, st, recover, s);
    SepTablesStrip(k, recover);
    TextsOfSections(Sep(k.root), TomlLine("", false, "", !st.Fresh()), Sep(k.tables), recover);
  }

  lemma TextsOfSections(a: seq<Line>, b: TomlLine, c: seq<Line>, recover: bool)
    ensures Texts(Classify(FRESH, a, recover) + ([b] + Classify(FRESH, c, recover))) == a + ([b.text] + c)
  {
    TextsAround(Classify(FRESH, a, recover), b, Classify(FRESH, c, recover));
    assert Texts(Classify(FRESH, a, recover)) == a && Texts(Classify(FRESH, c, recover)) == c;
  }

  lemma TextsAround(x: seq<TomlLine>, b: TomlLine, y: seq<TomlLine>)
    ensures Texts(x + ([b] + y)) == Texts(x) + ([b.text] + Texts(y))
  {}

  // ---- the surviving lines, split again ----

  lemma SurvivorsClose(k: Parts, recover: bool)
    requires Sound(k, recover)
    ensures Closes(Survivors(k)) == !recover
  {
    var st := EndState(FRESH, k.root, false);
    ClassifyConcat(FRESH, Sep(k.root), [""] + Sep(k.tables), false);
    SepScan(FRESH, k.root, false);
    BlankKeepsState(st, "");
    assert ([""] + Sep(k.tables))[1..] == Sep(k.tables);
    SepScan(st, k.tables, false);
  }

  lemma NoLeadInside(a: seq<TomlLine>, b: seq<TomlLine>)
    requires NoHeader(a) && (a == [] || Stops(a) || Lead(b).None?)
    ensures forall i :: 0 <= i < |a| ==> Lead((a + b)[i..]).None?
  {
    forall i | 0 <= i < |a|
      ensures Lead((a + b)[i..]).None?
    {
      assert (a + b)[i..] == a[i..] + b;
      LeadConcat(a[i..], b);
      NoHeaderNoLead(a[i..]);
    }
  }

  lemma BlanksLead(b: TomlLine, t: seq<TomlLine>)
    requires !b.isHeader && b.text == "" && Lead(t).Some? && Lead(t) != Some(MANAGED_TABLE)
    ensures Lead([b] + t) == Lead(t)
  {
    assert ([b] + t)[1..] == t;
    assert Blank("");
  }

  /** Entered after the surviving root, the surviving tables still lead to their first header. */
  lemma SurvivingTablesLead(k: Parts, recover: bool)
    requires Sound(k, recover) && k.tables != []
    ensures var t := Classify(EndState(FRESH, k.root, recover), k.tables, recover);
      Lead(t).Some? && Lead(t) != Some(MANAGED_TABLE)
  {
    LeadIsAHeader(Classify(FRESH, k.tables, recover));
    if recover {
      LeadIgnoresState(EndState(FRESH, k.root, recover), FRESH, k.tables);
    }
  }

  lemma SurvivorsScan(k: Parts, recover: bool)
    requires Sound(k, recover)
    ensures var st := EndState(FRESH, k.root, recover);
      var b := TomlLine("", false, "", !st.Fresh());
      Scan(Survivors(k)) == Classify(FRESH, Sep(k.root), recover)
        + (if k.tables == [] then [b] else [b] + ([b] + Classify(st, k.tables, recover)))
  {
    SurvivorsClose(k, recover);
    var st := EndState(FRESH, k.root, recover);
    ClassifyConcat(FRESH, Sep(k.root), [""] + Sep(k.tables), recover);
    SepScan(FRESH, k.root, recover);
    BlankKeepsState(st, "");
    assert ([""] + Sep(k.tables))[1..] == Sep(k.tables);
    SepScan(st, k.tables, recover);
  }

  lemma SepRootScan(k: Parts, recover: bool)
    requires Sound(k, recover)
    ensures NoHeader(Classify(FRESH, Sep(k.root), recover))
    ensures k.root != [] && k.tables != [] ==> Stops(Classify(FRESH, Sep(k.root), recover))
  {
    SepScan(FRESH, k.root, recover);
    var cs := Classify(FRESH, Sep(k.root), recover);
    if k.root != [] && k.tables != [] {
      assert cs[|cs| - 1].text == k.root[|k.root| - 1];
    }
  }

  lemma SurvivorsSplit(k: Parts, recover: bool)
    requires Sound(k, recover)
    ensures SplitIndex(Scan(Survivors(k))) == if k.tables == [] then |Survivors(k)| else |Sep(k.root)|
  {
    SurvivorsScan(k, recover);
    SepRootScan(k, recover);
    var st := EndState(FRESH, k.root, recover);
    var b := TomlLine("", false, "", !st.Fresh());
    var a := Classify(FRESH, Sep(k.root), recover);
    if k.tables == [] {
      NoCut(a, b);
    } else {
      SurvivingTablesLead(k, recover);
      CutAtBlanks(a, b, Classify(st, k.tables, recover));
    }
  }

  lemma NoCut(a: seq<TomlLine>, b: TomlLine)
    requires NoHeader(a) && !b.isHeader
    ensures SplitIndex(a + [b]) == |a| + 1
  {
    NoLeadInside(a + [b], []);
    assert a + [b] + [] == a + [b];
    SplitIndexIs(a + [b], |a| + 1);
  }

  lemma CutAtBlanks(a: seq<TomlLine>, b: TomlLine, t: seq<TomlLine>)
    requires NoHeader(a) && (a == [] || Stops(a))
    requires !b.isHeader && b.text == "" && Lead(t).Some? && Lead(t) != Some(MANAGED_TABLE)
    ensures SplitIndex(a + ([b] + ([b] + t))) == |a|
  {
    BlanksLead(b, t);
    BlanksLead(b, [b] + t);
    NoLeadInside(a, [b] + ([b] + t));
    assert (a + ([b] + ([b] + t)))[|a|..] == [b] + ([b] + t);
    SplitIndexIs(a + ([b] + ([b] + t)), |a|);
  }

  lemma CutAt(ls: seq<Line>, a: seq<Line>, b: seq<Line>)
    requires ls == a + b && SplitIndex(Scan(ls)) == |a|
    ensures RootPart(ls) == a && TablesPart(ls) == b
  {}

  /** The cut of the survivors, as text. */
  function FirstPart(k: Parts): seq<Line> {
    if k.tables == [] then Sep(k.root) + [""] else Sep(k.root)
  }

  function LastPart(k: Parts): seq<Line> {
    if k.tables == [] then [] else ["", ""] + k.tables
  }

  lemma SurvivorsText(k: Parts)
    ensures Survivors(k) == FirstPart(k) + LastPart(k)
    ensures |FirstPart(k)| == if k.tables == [] then |Survivors(k)| else |Sep(k.root)|
  {}

  lemma SurvivorsCut(k: Parts, recover: bool)
    requires Sound(k, recover)
    ensures RootPart(Survivors(k)) == FirstPart(k) && TablesPart(Survivors(k)) == LastPart(k)
  {
    SurvivorsSplit(k, recover);
    SurvivorsText(k);
    CutAt(Survivors(k), FirstPart(k), LastPart(k));
  }

  lemma TrimSep(ls: seq<Line>, post: seq<Line>)
    requires Trimmed(ls) && AllBlank(post)
    ensures TrimBlank(Sep(ls) + post) == ls
  {
    assert Blank("");
    var pre: seq<Line> := if ls == [] then [] else [""];
    assert Sep(ls) == pre + ls;
    TrimIgnoresBlanks(pre, ls, post);
  }

  lemma TrimTwoBlanks(ls: seq<Line>)
    requires Trimmed(ls)
    ensures TrimBlank(["", ""] + ls) == ls
  {
    assert Blank("");
    assert ["", ""] + ls + [] == ["", ""] + ls;
    TrimIgnoresBlanks(["", ""], ls, []);
  }

  /** Splitting and trimming the survivors gives the same two parts again. */
  lemma SurvivorsParts(k: Parts, recover: bool)
    requires Sound(k, recover)
    ensures PartsOf(Survivors(k)) == k
  {
    SurvivorsCut(k, recover);
    assert Blank("");
    if k.tables == [] {
      TrimSep(k.root, [""]);
    } else {
      assert Sep(k.root) + [] == Sep(k.root);
      TrimSep(k.root, []);
      TrimTwoBlanks(k.tables);
    }
  }
}
