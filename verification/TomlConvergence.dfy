/** What repeated merges do to a file: exact redelivery for files that close,
    and convergence with no growth for any file at all. */
module TomlConvergence {
  import opened Text
  import opened TomlScan
  import opened TomlSections
  import opened TomlStrip
  import opened TomlStability
  import opened TomlAssembly
  import opened TomlRedelivery

  // ---- the merged file is the assembled one ----

  lemma FragmentCloses(f: Fragment)
    requires f.Valid()
    ensures Closes(f.AllLines())
    ensures Scan(f.AllLines())
            == Classify(FRESH, f.root, false) + ([TomlLine("", false, "", false)] + Classify(FRESH, f.Tables(), false))
  {
    assert f.AllLines() == f.root + ([""] + f.Tables());
    RootLinesScan(f.root, false);
    TablesAreNeutral(f, FRESH);
    RootThenTables(f.root, f.Tables());
  }

  lemma RootThenTables(root: seq<Line>, tables: seq<Line>)
    requires EndState(FRESH, root, false) == FRESH && EndState(FRESH, tables, false) == FRESH && tables != []
    ensures Closes(root + ([""] + tables))
    ensures Scan(root + ([""] + tables))
            == Classify(FRESH, root, false) + ([TomlLine("", false, "", false)] + Classify(FRESH, tables, false))
  {
    ClassifyConcat(FRESH, root, [""] + tables, false);
    SepScan(FRESH, tables, false);
    assert Sep(tables) == [""] + tables;
  }

  lemma SplitBelowBlank(r: seq<TomlLine>, b: TomlLine, t: seq<TomlLine>)
    requires NoHeader(r) && Stops(r) && !b.isHeader && b.text == ""
    requires Lead(t) == Some(MANAGED_TABLE) && Stops(t)
    ensures SplitIndex(r + ([b] + t)) == |r| + 1
  {
    var cs := r + ([b] + t);
    BlankEndsManagedRun(b, t, []);
    assert [b] + t + [] == [b] + t;
    NoLeadInside(r, [b] + t);
    assert cs[|r|..] == [b] + t && cs[|r| + 1..] == t;
    SplitIndexIs(cs, |r| + 1);
  }

  lemma RootHeaderless(f: Fragment, recover: bool)
    requires f.Valid()
    ensures NoHeader(Classify(FRESH, f.root, recover)) && Stops(Classify(FRESH, f.root, recover))
  {
    RootStops(f, recover);
    RootLinesScan(f.root, recover);
  }

  lemma FragmentSplitIndex(f: Fragment)
    requires f.Valid()
    ensures SplitIndex(Scan(f.AllLines())) == |f.root| + 1
  {
    FragmentCloses(f);
    RootHeaderless(f, false);
    TablesStop(f, FRESH, false);
    TablesLead(f, FRESH, false);
    SplitBelowBlank(Classify(FRESH, f.root, false), TomlLine("", false, "", false), Classify(FRESH, f.Tables(), false));
  }

  lemma FragmentSplit(f: Fragment)
    requires f.Valid()
    ensures RootPart(f.AllLines()) == f.root + [""] && TablesPart(f.AllLines()) == f.Tables()
  {
    FragmentSplitIndex(f);
    CutAt(f.AllLines(), f.root + [""], f.Tables());
  }

  lemma RootTrimmed(ls: seq<Line>)
    requires ls != [] && forall l :: l in ls ==> RootLine(l)
    ensures TrimBlank(ls + [""]) == ls
  {
    assert ls[0] in ls && ls[|ls| - 1] in ls;
    ManagedKeyIsNotFiller(ls[0]);
    ManagedKeyIsNotFiller(ls[|ls| - 1]);
    assert Sep([]) == [] && [] + ls + [""] == ls + [""];
    assert Blank("");
    TrimIgnoresBlanks([], ls, [""]);
  }

  lemma TablesTrimmed(f: Fragment)
    requires f.Valid()
    ensures TrimBlank(f.Tables()) == f.Tables()
  {
    HeaderIsNotFiller(f.header);
    var t := f.Tables();
    assert t[0] == if f.notes == [] then f.header else f.notes[0];
    assert t[|t| - 1] == if f.body == [] then f.header else f.body[|f.body| - 1];
    assert f.notes != [] ==> f.notes[0] in f.notes && Comment(f.notes[0]);
    assert Trimmed(t);
    TrimIgnoresBlanks([], t, []);
    assert [] + t + [] == t;
  }

  /** Four trimmed sections, the first and third not empty, joined by single blanks. */
  lemma JoinSections(r: seq<Line>, kr: seq<Line>, t: seq<Line>, kt: seq<Line>)
    requires r != [] && t != []
    ensures Glue(Glue(Glue(Glue([], r), kr), t), kt) == r + (Sep(kr) + (Sep(t) + Sep(kt)))
  {
    var a := Glue([], r);
    assert a == r;
    var b, c := Glue(a, kr), Glue(Glue(a, kr), t);
    GlueIs(a, kr);
    GlueIs(b, t);
    GlueIs(c, kt);
    Regroup(r, Sep(kr), Sep(t), Sep(kt));
  }

  lemma GlueIs(out: seq<Line>, t: seq<Line>)
    requires out != []
    ensures Glue(out, t) == out + Sep(t)
  {}

  lemma Regroup(a: seq<Line>, b: seq<Line>, c: seq<Line>, d: seq<Line>)
    ensures a + b + c + d == a + (b + (c + d))
  {}

  /** The four appended sections are the fragment around the surviving parts. */
  lemma AssembleIsAssembled(f: Fragment, kept: seq<Line>)
    requires f.Valid()
    ensures Assemble(f.AllLines(), kept) == Assembled(f, PartsOf(kept))
  {
    FragmentSplit(f);
    RootTrimmed(f.root);
    TablesTrimmed(f);
    JoinSections(f.root, PartsOf(kept).root, f.Tables(), PartsOf(kept).tables);
    assert Sep(f.Tables()) == [""] + f.Tables();
  }

  // ---- what survives is sound ----

  lemma {:induction false} StripMembers(s: StripState, cs: seq<TomlLine>)
    ensures forall c :: c in Strip(s, cs) ==> c in cs && !(c.isHeader && c.header == MANAGED_TABLE)
    decreases |cs|
  {
    if cs != [] {
      var (keep, s') := StripStep(s, cs);
      StripMembers(s', cs[1..]);
    }
  }

  lemma KeptMembers(ls: seq<Line>)
    ensures forall l :: l in Kept(ls) ==> l in ls
  {
    var kept := Strip(AT_ROOT, Scan(ls));
    StripMembers(AT_ROOT, Scan(ls));
    forall l | l in Texts(kept)
      ensures l in ls
    {
      var i :| 0 <= i < |kept| && kept[i].text == l;
      assert kept[i] in Scan(ls);
    }
  }

  lemma KeptClean(ls: seq<Line>)
    requires CommentsClean(ls)
    ensures CommentsClean(Kept(ls))
  {
    KeptMembers(ls);
  }

  lemma CleanIsWhole(ls: seq<Line>)
    requires CommentsClean(ls)
    ensures Whole(ls)
  {
    KeptClean(ls);
    CleanIsApart(FRESH, ls);
    CleanIsApart(FRESH, Kept(ls));
  }

  /** No header of the managed table is left, in whichever pass the rest is read. */
  lemma KeptHasNoManagedHeader(ls: seq<Line>)
    requires Closes(ls) ==> Apart(Scan(ls))
    ensures NoManagedHeader(Scan(Kept(ls)))
  {
    if Closes(ls) {
      KeptScansTheSame(FRESH, AT_ROOT, ls);
      StripMembers(AT_ROOT, Scan(ls));
    } else {
      NoManagedShape(ls);
      HeadersOfShape(Kept(ls));
    }
  }

  lemma HeadersOfShape(ls: seq<Line>)
    requires forall l :: l in ls ==> Shape(l) != Some(MANAGED_TABLE)
    ensures NoManagedHeader(Scan(ls))
  {
    forall i | 0 <= i < |ls| && Scan(ls)[i].isHeader
      ensures Scan(ls)[i].header != MANAGED_TABLE
    {
      assert ls[i] in ls;
      HeaderShape(FRESH, ls, !Closes(ls), i);
    }
  }

  /** In the recovering pass every line of that shape is a header, and dropped. */
  lemma NoManagedShape(ls: seq<Line>)
    requires !Closes(ls)
    ensures forall l :: l in Kept(ls) ==> Shape(l) != Some(MANAGED_TABLE)
  {
    var kept := Strip(AT_ROOT, Scan(ls));
    StripMembers(AT_ROOT, Scan(ls));
    RecoveryHeaders(FRESH, ls);
    forall i | 0 <= i < |kept|
      ensures Shape(kept[i].text) != Some(MANAGED_TABLE)
    {
      assert kept[i] in Scan(ls);
      var j :| 0 <= j < |ls| && Scan(ls)[j] == kept[i];
    }
  }

  lemma SurvivingPartsSound(ls: seq<Line>)
    requires Whole(ls)
    ensures Sound(PartsOf(Kept(ls)), !Closes(Kept(ls)))
  {
    KeptHasNoManagedHeader(ls);
    PartsAreSound(Kept(ls));
  }

  lemma CleanConcat(a: seq<Line>, b: seq<Line>)
    requires CommentsClean(a) && CommentsClean(b)
    ensures CommentsClean(a + b)
  {}

  lemma TablesClean(f: Fragment)
    requires f.Valid()
    ensures CommentsClean([""] + f.Tables())
  {
    HeaderIsNotFiller(f.header);
    assert !Comment("");
  }

  // ---- nothing in a value leads to a header ----

  lemma {:induction false} ApartConcat(a: seq<TomlLine>, b: seq<TomlLine>)
    requires Apart(a) && Apart(b) && (a == [] || Stops(a) || Lead(b).None?)
    ensures Apart(a + b)
  {
    if a == [] {
      assert a + b == b;
    } else {
      assert (a + b)[0] == a[0] && (a + b)[1..] == a[1..] + b;
      LeadConcat(a, b);
      ApartConcat(a[1..], b);
    }
  }

  lemma {:induction false} NoHeaderApart(cs: seq<TomlLine>)
    requires NoHeader(cs)
    ensures Apart(cs)
  {
    if cs != [] {
      NoHeaderNoLead(cs);
      NoHeaderApart(cs[1..]);
    }
  }

  lemma BelowBlankApart(b: TomlLine, cs: seq<TomlLine>)
    requires !b.continuation && Apart(cs)
    ensures Apart([b] + cs)
  {
    assert ([b] + cs)[1..] == cs;
  }

  lemma SepApart(ls: seq<Line>)
    requires Apart(Classify(FRESH, ls, false))
    ensures Apart(Classify(FRESH, Sep(ls), false))
  {
    SepScan(FRESH, ls, false);
    if ls != [] {
      BelowBlankApart(TomlLine("", false, "", false), Classify(FRESH, ls, false));
    }
  }

  lemma TablesRunApart(f: Fragment)
    requires f.Valid()
    ensures Apart(TablesRun(f, FRESH, false))
  {
    TablesClean(f);
    assert forall l :: l in f.Tables() ==> l in [""] + f.Tables();
    CleanIsApart(FRESH, f.Tables());
    TablesRunIs(f, FRESH, false);
    BelowBlankApart(TomlLine("", false, "", false), Classify(FRESH, f.Tables(), false));
  }

  lemma AssembledApart(f: Fragment, k: Parts)
    requires f.Valid() && Sound(k, false)
    ensures Apart(Scan(Assembled(f, k)))
  {
    var r, a := Classify(FRESH, f.root, false), Classify(FRESH, Sep(k.root), false);
    var t, u := TablesRun(f, FRESH, false), Classify(FRESH, Sep(k.tables), false);
    AssembledScan(f, k, false);
    SepApart(k.tables);
    TablesRunApart(f);
    TablesStop(f, FRESH, false);
    ApartConcat(t, u);
    SepRootScan(k, false);
    NoHeaderApart(a);
    TablesRunLeadsNowhere(f, FRESH, false, u);
    ApartConcat(a, t + u);
    RootHeaderless(f, false);
    NoHeaderApart(r);
    ApartConcat(r, a + (t + u));
  }

  lemma SurvivorsApart(k: Parts)
    requires Sound(k, false)
    ensures Apart(Scan(Survivors(k)))
  {
    var b, t := TomlLine("", false, "", false), Classify(FRESH, k.tables, false);
    SurvivorsScan(k, false);
    SepRootScan(k, false);
    var a := Classify(FRESH, Sep(k.root), false);
    NoHeaderApart(a);
    if k.tables == [] {
      NoHeaderApart(a + [b]);
    } else {
      BelowBlankApart(b, t);
      BelowBlankApart(b, [b] + t);
      ApartConcat(a, [b] + ([b] + t));
    }
  }

  /** A merged file whose root is clean is whole again. */
  lemma AssembledWhole(f: Fragment, k: Parts, recover: bool)
    requires f.ValidFor(recover) && Sound(k, recover) && RootClean(Classify(FRESH, k.root, recover))
    ensures Whole(Assembled(f, k))
  {
    AssembledCloses(f, k, recover);
    AssembledKept(f, k, recover);
    SurvivorsClose(k, recover);
    if !recover {
      AssembledApart(f, k);
      SurvivorsApart(k);
    }
  }

  // ---- one managed header ----

  function ManagedHeaders(cs: seq<TomlLine>): nat {
    if cs == [] then 0
    else (if cs[0].isHeader && cs[0].header == MANAGED_TABLE then 1 else 0) + ManagedHeaders(cs[1..])
  }

  lemma {:induction false} ManagedHeadersConcat(a: seq<TomlLine>, b: seq<TomlLine>)
    ensures ManagedHeaders(a + b) == ManagedHeaders(a) + ManagedHeaders(b)
  {
    if a == [] {
      assert a + b == b;
    } else {
      assert (a + b)[1..] == a[1..] + b;
      ManagedHeadersConcat(a[1..], b);
    }
  }

  lemma {:induction false} NoManagedHeaders(cs: seq<TomlLine>)
    requires NoManagedHeader(cs)
    ensures ManagedHeaders(cs) == 0
  {
    if cs != [] {
      NoManagedHeaders(cs[1..]);
    }
  }

  lemma CountFour(r: seq<TomlLine>, a: seq<TomlLine>, t: seq<TomlLine>, u: seq<TomlLine>)
    ensures ManagedHeaders(r + (a + (t + u)))
      == ManagedHeaders(r) + ManagedHeaders(a) + ManagedHeaders(t) + ManagedHeaders(u)
  {
    ManagedHeadersConcat(r, a + (t + u));
    ManagedHeadersConcat(a, t + u);
    ManagedHeadersConcat(t, u);
  }

  lemma {:induction false} HeadersIgnoreState(st: ScanState, st': ScanState, ls: seq<Line>)
    ensures ManagedHeaders(Classify(st, ls, true)) == ManagedHeaders(Classify(st', ls, true))
    decreases |ls|
  {
    if ls != [] {
      HeadersIgnoreState(NextState(st, ls[0], true), NextState(st', ls[0], true), ls[1..]);
      assert Classify(st, ls, true)[1..] == Classify(NextState(st, ls[0], true), ls[1..], true);
      assert Classify(st', ls, true)[1..] == Classify(NextState(st', ls[0], true), ls[1..], true);
    }
  }

  lemma SepHeaders(st: ScanState, ls: seq<Line>, recover: bool)
    ensures ManagedHeaders(Classify(st, Sep(ls), recover)) == ManagedHeaders(Classify(st, ls, recover))
  {
    SepScan(st, ls, recover);
    if ls != [] {
      ManagedHeadersConcat([TomlLine("", false, "", !st.Fresh())], Classify(st, ls, recover));
    }
  }

  /** Scanned inside a value, the delivered table shows no header. */
  lemma TablesHidden(f: Fragment, st: ScanState)
    requires f.Valid() && !st.Fresh()
    ensures ManagedHeaders(TablesRun(f, st, false)) == 0
  {
    assert f.Tables() == f.notes + ([f.header] + f.body);
    NotesAboveTable(f.notes, [f.header] + f.body, st, false);
    HeaderHidden(f.header, f.body, st);
    SepHeaders(st, f.Tables(), false);
    assert Sep(f.Tables()) == [""] + f.Tables();
    ManagedHeadersConcat(Classify(st, f.notes, false), Classify(st, [f.header] + f.body, false));
    NoManagedHeaders(Classify(st, f.notes, false));
  }

  lemma HeaderHidden(header: Line, body: seq<Line>, st: ScanState)
    requires !st.Fresh() && Advance(st, header, 0) == st && forall l :: l in body ==> Shape(l).None?
    ensures ManagedHeaders(Classify(st, [header] + body, false)) == 0
  {
    OneStep(st, header, body, false);
    BodyHasNoHeader(st, body, false);
    ManagedHeadersConcat([ClassifyLine(st, header, false)], Classify(st, body, false));
    NoManagedHeaders(Classify(st, body, false));
  }

  lemma TablesRunCount(f: Fragment, st: ScanState, recover: bool)
    requires f.Valid()
    ensures ManagedHeaders(TablesRun(f, st, recover)) == if recover || st.Fresh() then 1 else 0
  {
    if recover || st.Fresh() {
      TablesRunHasOne(f, st, recover);
    } else {
      TablesHidden(f, st);
    }
  }

  /** The managed headers of the file assembled from any two parts: those of the
      parts, and the delivered one unless the first part leaves a value open that
      the second closes. */
  lemma AssembledHeaders(f: Fragment, k: Parts)
    requires f.ValidFor(EndState(FRESH, k.root, false) != FRESH)
    ensures var m := Assembled(f, k);
      var r := !Closes(m);
      ManagedHeaders(Scan(m)) == ManagedHeaders(Classify(FRESH, k.root, r))
        + ManagedHeaders(Classify(EndState(FRESH, k.root, r), k.tables, r))
        + if r || EndState(FRESH, k.root, false).Fresh() then 1 else 0
  {
    var r := !Closes(Assembled(f, k));
    var st := EndState(FRESH, k.root, r);
    SectionsScan(f, k, r);
    var end := EndState(st, [""] + f.Tables(), r);
    RootHeaderless(f, r);
    NoManagedHeaders(Classify(FRESH, f.root, r));
    SepHeaders(FRESH, k.root, r);
    TablesRunCount(f, st, r);
    SepHeaders(end, k.tables, r);
    CountFour(Classify(FRESH, f.root, r), Classify(FRESH, Sep(k.root), r), TablesRun(f, st, r),
      Classify(end, Sep(k.tables), r));
    if r {
      HeadersIgnoreState(end, st, k.tables);
    } else {
      TablesEndWhereTheyStart(f, st);
    }
  }

  lemma TablesEndWhereTheyStart(f: Fragment, st: ScanState)
    requires f.ValidFor(st != FRESH)
    ensures EndState(st, [""] + f.Tables(), false) == st
  {
    TablesAreNeutral(f, st);
    SepScan(st, f.Tables(), false);
    assert Sep(f.Tables()) == [""] + f.Tables();
  }

  /** In either pass the assembled file is read section after section. */
  lemma SectionsScan(f: Fragment, k: Parts, recover: bool)
    requires f.Valid()
    ensures var st := EndState(FRESH, k.root, recover);
      Classify(FRESH, Assembled(f, k), recover)
        == Classify(FRESH, f.root, recover) + (Classify(FRESH, Sep(k.root), recover)
        + (TablesRun(f, st, recover) + Classify(EndState(st, [""] + f.Tables(), recover), Sep(k.tables), recover)))
  {
    RootLinesScan(f.root, recover);
    ClassifyConcat(FRESH, f.root, Sep(k.root) + ([""] + f.Tables() + Sep(k.tables)), recover);
    SepScan(FRESH, k.root, recover);
    ClassifyConcat(FRESH, Sep(k.root), [""] + f.Tables() + Sep(k.tables), recover);
    ClassifyConcat(EndState(FRESH, k.root, recover), [""] + f.Tables(), Sep(k.tables), recover);
  }

  lemma OneManagedHeader(f: Fragment, k: Parts, recover: bool)
    requires f.ValidFor(recover) && Sound(k, recover)
    ensures ManagedHeaders(Scan(Assembled(f, k))) == 1
  {
    AssembledHeaders(f, k);
    AssembledCloses(f, k, recover);
    NoManagedHeaders(Classify(FRESH, k.root, recover));
    NoManagedHeaders(Classify(FRESH, k.tables, recover));
    if recover {
      HeadersIgnoreState(EndState(FRESH, k.root, true), FRESH, k.tables);
    }
  }

  /** Trimming a section loses no header. */
  lemma TrimmedHeaders(st: ScanState, ls: seq<Line>, recover: bool)
    ensures ManagedHeaders(Classify(st, TrimBlank(ls), recover)) == ManagedHeaders(Classify(st, ls, recover))
    ensures EndState(st, TrimBlank(ls), recover) == EndState(st, ls, recover)
  {
    var pre, post := TrimKeepsScan(st, ls, recover);
    var end := EndState(st, ls, recover);
    BlanksKeepState(st, pre, recover);
    BlanksKeepState(end, post, recover);
    NoManagedHeaders(Classify(st, pre, recover));
    NoManagedHeaders(Classify(end, post, recover));
    ManagedHeadersConcat(Classify(st, pre, recover) + Classify(st, TrimBlank(ls), recover),
      Classify(end, post, recover));
    ManagedHeadersConcat(Classify(st, pre, recover), Classify(st, TrimBlank(ls), recover));
  }

  lemma HeadersOfTrimmed(a: seq<Line>, b: seq<Line>, recover: bool)
    ensures EndState(FRESH, TrimBlank(a), recover) == EndState(FRESH, a, recover)
    ensures ManagedHeaders(Classify(FRESH, a + b, recover)) == ManagedHeaders(Classify(FRESH, TrimBlank(a), recover))
           + ManagedHeaders(Classify(EndState(FRESH, a, recover), TrimBlank(b), recover))
  {
    var st := EndState(FRESH, a, recover);
    ClassesConcat(FRESH, a, b, recover);
    TrimmedHeaders(FRESH, a, recover);
    TrimmedHeaders(st, b, recover);
    ManagedHeadersConcat(Classify(FRESH, a, recover), Classify(st, b, recover));
  }

  lemma HeadersOfParts(kept: seq<Line>, recover: bool)
    ensures var k := PartsOf(kept);
      && EndState(FRESH, k.root, recover) == EndState(FRESH, RootPart(kept), recover)
      && ManagedHeaders(Classify(FRESH, kept, recover)) == ManagedHeaders(Classify(FRESH, k.root, recover))
           + ManagedHeaders(Classify(EndState(FRESH, k.root, recover), k.tables, recover))
  {
    assert kept == RootPart(kept) + TablesPart(kept);
    HeadersOfTrimmed(RootPart(kept), TablesPart(kept), recover);
  }

  /** Whatever the file kept, with no condition on its comments: the merged file
      closes when it does, and has the managed headers it has, and the delivered
      one unless the cut falls inside a value of a file that closes. */
  lemma HeadersExactly(f: Fragment, kept: seq<Line>)
    requires f.ValidFor(EndState(FRESH, RootPart(kept), false) != FRESH)
    ensures var m := Assembled(f, PartsOf(kept));
      && Closes(m) == Closes(kept)
      && ManagedHeaders(Scan(m)) == ManagedHeaders(Scan(kept))
           + if Closes(kept) && !EndState(FRESH, RootPart(kept), false).Fresh() then 0 else 1
  {
    EndsOfParts(kept);
    AssembledEnds(f, PartsOf(kept));
    HeadersOfParts(kept, !Closes(kept));
    AssembledHeaders(f, PartsOf(kept));
  }

  lemma TablesRunHasOne(f: Fragment, st: ScanState, recover: bool)
    requires f.Valid() && (recover || st == FRESH)
    ensures ManagedHeaders(TablesRun(f, st, recover)) == 1
  {
    TablesRunIs(f, st, recover);
    TablesScan(f, st, recover);
    var n, b := Classify(st, f.notes, recover), Classify(FRESH, f.body, recover);
    var h := TomlLine(f.header, true, MANAGED_TABLE, false);
    NoManagedHeaders(n);
    NoManagedHeaders(b);
    ManagedHeadersConcat([TomlLine("", false, "", !st.Fresh())], n + ([h] + b));
    ManagedHeadersConcat(n, [h] + b);
    assert ([h] + b)[1..] == b;
  }

  // ---- counting lines ----

  function NonBlank(ls: seq<Line>): nat {
    if ls == [] then 0 else (if Blank(ls[0]) then 0 else 1) + NonBlank(ls[1..])
  }

  lemma {:induction false} NonBlankConcat(a: seq<Line>, b: seq<Line>)
    ensures NonBlank(a + b) == NonBlank(a) + NonBlank(b)
  {
    if a == [] {
      assert a + b == b;
    } else {
      assert (a + b)[1..] == a[1..] + b;
      NonBlankConcat(a[1..], b);
    }
  }

  lemma {:induction false} NonBlankOfBlanks(ls: seq<Line>)
    requires AllBlank(ls)
    ensures NonBlank(ls) == 0
  {
    if ls != [] {
      assert ls[0] in ls;
      NonBlankOfBlanks(ls[1..]);
    }
  }

  lemma NonBlankTrim(ls: seq<Line>)
    ensures NonBlank(TrimBlank(ls)) == NonBlank(ls)
  {
    var pre, post := TrimParts(ls);
    NonBlankConcat(pre + TrimBlank(ls), post);
    NonBlankConcat(pre, TrimBlank(ls));
    NonBlankOfBlanks(pre);
    NonBlankOfBlanks(post);
  }

  lemma NonBlankSep(ls: seq<Line>)
    ensures NonBlank(Sep(ls)) == NonBlank(ls)
  {
    assert Blank("");
    if ls != [] {
      assert ([""] + ls)[1..] == ls;
    }
  }

  lemma NonBlankParts(kept: seq<Line>)
    ensures NonBlank(PartsOf(kept).root) + NonBlank(PartsOf(kept).tables) == NonBlank(kept)
  {
    NonBlankTrim(RootPart(kept));
    NonBlankTrim(TablesPart(kept));
    NonBlankCut(kept, SplitIndex(Scan(kept)));
  }

  lemma NonBlankCut(ls: seq<Line>, p: nat)
    requires p <= |ls|
    ensures NonBlank(ls) == NonBlank(ls[..p]) + NonBlank(ls[p..])
  {
    NonBlankConcat(ls[..p], ls[p..]);
    assert ls == ls[..p] + ls[p..];
  }

  lemma NonBlankAssembled(f: Fragment, k: Parts)
    ensures NonBlank(Assembled(f, k)) == NonBlank(f.AllLines()) + NonBlank(k.root) + NonBlank(k.tables)
  {
    assert f.AllLines() == f.root + Sep(f.Tables());
    assert Assembled(f, k) == f.root + (Sep(k.root) + (Sep(f.Tables()) + Sep(k.tables)));
    NonBlankConcat(f.root, Sep(f.Tables()));
    NonBlankConcat(f.root, Sep(k.root) + (Sep(f.Tables()) + Sep(k.tables)));
    NonBlankConcat(Sep(k.root), Sep(f.Tables()) + Sep(k.tables));
    NonBlankConcat(Sep(f.Tables()), Sep(k.tables));
    NonBlankSep(k.root);
    NonBlankSep(k.tables);
  }

  lemma {:induction false} StripNeverAdds(s: StripState, cs: seq<TomlLine>)
    ensures NonBlank(Texts(Strip(s, cs))) <= NonBlank(Texts(cs))
    decreases |cs|
  {
    if cs != [] {
      var (keep, s') := StripStep(s, cs);
      StripNeverAdds(s', cs[1..]);
      TextsCons(cs[0], cs[1..]);
      assert [cs[0]] + cs[1..] == cs;
      assert ([cs[0].text] + Texts(cs[1..]))[1..] == Texts(cs[1..]);
      if keep {
        TextsCons(cs[0], Strip(s', cs[1..]));
        assert ([cs[0].text] + Texts(Strip(s', cs[1..])))[1..] == Texts(Strip(s', cs[1..]));
      } else {
        assert Strip(s, cs) == Strip(s', cs[1..]);
      }
    }
  }

  // ---- no growth ----

  /** A managed assignment at the root is one line fewer. */
  lemma {:induction false} StripDropsManagedKey(s: StripState, cs: seq<TomlLine>)
    requires s.table.None? && NoHeader(cs) && !RootClean(cs)
    ensures NonBlank(Texts(Strip(s, cs))) < NonBlank(Texts(cs))
    decreases |cs|
  {
    var (keep, s') := StripStep(s, cs);
    NoHeaderNoLead(cs);
    TextsCons(cs[0], cs[1..]);
    assert [cs[0]] + cs[1..] == cs;
    assert ([cs[0].text] + Texts(cs[1..]))[1..] == Texts(cs[1..]);
    if !cs[0].continuation && ManagedKey(cs[0].text) {
      ManagedKeyIsNotFiller(cs[0].text);
      StripNeverAdds(s', cs[1..]);
      assert Strip(s, cs) == Strip(s', cs[1..]);
    } else {
      assert !RootClean(cs[1..]) by {
        var i :| 0 <= i < |cs| && !cs[i].continuation && ManagedKey(cs[i].text);
        assert cs[1..][i - 1] == cs[i];
      }
      StripDropsManagedKey(s', cs[1..]);
      if keep {
        TextsCons(cs[0], Strip(s', cs[1..]));
        assert ([cs[0].text] + Texts(Strip(s', cs[1..])))[1..] == Texts(Strip(s', cs[1..]));
      } else {
        assert Strip(s, cs) == Strip(s', cs[1..]);
      }
    }
  }

  lemma TextsConcat(a: seq<TomlLine>, b: seq<TomlLine>)
    ensures Texts(a + b) == Texts(a) + Texts(b)
  {}

  lemma SepRootClean(k: Parts, recover: bool)
    requires Sound(k, recover)
    ensures RootClean(Classify(FRESH, Sep(k.root), recover)) <==> RootClean(Classify(FRESH, k.root, recover))
  {
    SepScan(FRESH, k.root, recover);
    var cs, cs' := Classify(FRESH, k.root, recover), Classify(FRESH, Sep(k.root), recover);
    assert Blank("");
    assert !ManagedKey("");
    assert k.root != [] ==> forall i :: 0 <= i < |cs| ==> cs'[i + 1] == cs[i];
    assert k.root != [] ==> forall i :: 1 <= i < |cs'| ==> cs'[i] == cs[i - 1];
  }

  /** Of a merged file only surviving lines survive again. */
  lemma AssembledKeptBound(f: Fragment, k: Parts, recover: bool)
    requires f.ValidFor(recover) && Sound(k, recover)
    ensures NonBlank(Kept(Assembled(f, k)))
            <= NonBlank(Texts(Strip(StripState(None, true), Classify(FRESH, Sep(k.root), recover))))
              + NonBlank(k.tables)
  {
    var st := EndState(FRESH, k.root, recover);
    var sep, run, tables := Classify(FRESH, Sep(k.root), recover), TablesRun(f, st, recover),
      Classify(FRESH, Sep(k.tables), recover);
    var s := StripAfter(StripState(None, true), sep);
    StripBySection(f, k, recover);
    SepRootScan(k, recover);
    RootStripStaysAtRoot(StripState(None, true), sep);
    RunAddsNothing(f, st, recover, s);
    CountKept(Strip(StripState(None, true), sep), Strip(s, run), Strip(StripAfter(s, run), tables));
    StripNeverAdds(StripAfter(s, run), tables);
    ClassifiedTexts(Sep(k.tables), recover);
    NonBlankSep(k.tables);
  }

  lemma ClassifiedTexts(ls: seq<Line>, recover: bool)
    ensures Texts(Classify(FRESH, ls, recover)) == ls
  {}

  /** The surviving lines never become more, and become fewer when the root
      holds a managed key that is not the fragment's. */
  lemma AssembledShrinks(f: Fragment, k: Parts, recover: bool)
    requires f.ValidFor(recover) && Sound(k, recover)
    ensures NonBlank(Kept(Assembled(f, k))) <= NonBlank(k.root) + NonBlank(k.tables)
    ensures !RootClean(Classify(FRESH, k.root, recover)) ==>
      NonBlank(Kept(Assembled(f, k))) < NonBlank(k.root) + NonBlank(k.tables)
  {
    var sep := Classify(FRESH, Sep(k.root), recover);
    AssembledKeptBound(f, k, recover);
    StripNeverAdds(StripState(None, true), sep);
    ClassifiedTexts(Sep(k.root), recover);
    NonBlankSep(k.root);
    SepRootClean(k, recover);
    if !RootClean(sep) {
      SepRootScan(k, recover);
      StripDropsManagedKey(StripState(None, true), sep);
    }
  }

  lemma CountKept(a: seq<TomlLine>, b: seq<TomlLine>, c: seq<TomlLine>)
    ensures NonBlank(Texts(a + (b + c))) == NonBlank(Texts(a)) + NonBlank(Texts(b)) + NonBlank(Texts(c))
  {
    TextsConcat(a, b + c);
    TextsConcat(b, c);
    NonBlankConcat(Texts(a), Texts(b) + Texts(c));
    NonBlankConcat(Texts(b), Texts(c));
  }

  lemma {:induction false} RootStripStaysAtRoot(s: StripState, cs: seq<TomlLine>)
    requires s.table.None? && NoHeader(cs)
    ensures StripAfter(s, cs).table.None?
    decreases |cs|
  {
    if cs != [] {
      NoHeaderNoLead(cs);
      RootStripStaysAtRoot(StripStep(s, cs).1, cs[1..]);
    }
  }

  lemma RunAddsNothing(f: Fragment, st: ScanState, recover: bool, s: StripState)
    requires f.Valid() && (recover || st == FRESH) && s.table.None?
    ensures NonBlank(Texts(Strip(s, TablesRun(f, st, recover)))) == 0
  {
    var b, t := TomlLine("", false, "", !st.Fresh()), Classify(st, f.Tables(), recover);
    TablesRunIs(f, st, recover);
    TablesScan(f, st, recover);
    TablesLead(f, st, recover);
    ManagedTableStrip(StripStep(s, [b] + t).1, Classify(st, f.notes, recover),
      TomlLine(f.header, true, MANAGED_TABLE, false),
      Classify(FRESH, f.body, recover));
  }

  // ---- a clean root ----

  /** No fresh line before the first header assigns a managed key. */
  predicate CleanUntilHeader(cs: seq<TomlLine>) {
    cs == [] || cs[0].isHeader
    || ((cs[0].continuation || !ManagedKey(cs[0].text)) && CleanUntilHeader(cs[1..]))
  }

  lemma FillerIsNotManagedKey(l: Line)
    requires Filler(l)
    ensures !ManagedKey(l)
  {
    TrimmedStart(l);
  }

  lemma {:induction false} LeadIsFiller(cs: seq<TomlLine>)
    requires cs != [] && !cs[0].isHeader && Lead(cs).Some?
    ensures Filler(cs[0].text)
  {}

  lemma KeptLineIsClean(s: StripState, cs: seq<TomlLine>)
    requires cs != [] && !cs[0].isHeader
    requires s.table.None? || s.table == Some(MANAGED_TABLE)
    ensures StripStep(s, cs).1.table == s.table
    ensures StripStep(s, cs).0 ==> cs[0].continuation || !ManagedKey(cs[0].text)
  {
    if Lead(cs).Some? {
      LeadIsFiller(cs);
      FillerIsNotManagedKey(cs[0].text);
    }
  }

  lemma StripCons(s: StripState, cs: seq<TomlLine>)
    requires cs != []
    ensures var (keep, s') := StripStep(s, cs);
      if keep then Strip(s, cs) != [] && Strip(s, cs)[0] == cs[0] && Strip(s, cs)[1..] == Strip(s', cs[1..])
      else Strip(s, cs) == Strip(s', cs[1..])
  {}

  predicate HeadersStartLines(cs: seq<TomlLine>) {
    forall i :: 0 <= i < |cs| && cs[i].isHeader ==> !cs[i].continuation
  }

  lemma {:induction false} ScanHeadersStartLines(st: ScanState, ls: seq<Line>, recover: bool)
    ensures HeadersStartLines(Classify(st, ls, recover))
    decreases |ls|
  {
    if ls != [] {
      ScanHeadersStartLines(NextState(st, ls[0], recover), ls[1..], recover);
    }
  }

  /** What the strip keeps has no managed key before its first header. */
  lemma {:induction false} KeptIsClean(s: StripState, cs: seq<TomlLine>)
    requires s.table.None? || s.table == Some(MANAGED_TABLE)
    requires HeadersStartLines(cs)
    ensures CleanUntilHeader(Strip(s, cs))
    decreases |cs|
  {
    if cs != [] {
      StripCons(s, cs);
      if !cs[0].isHeader {
        KeptLineIsClean(s, cs);
        KeptIsClean(StripStep(s, cs).1, cs[1..]);
      } else if cs[0].header == MANAGED_TABLE {
        KeptIsClean(StripStep(s, cs).1, cs[1..]);
      }
    }
  }

  /** One step at the root: a kept line finds the state it had, a dropped one
      leaves the kept scan where it is. */
  lemma RootStepAligned(st: ScanState, st': ScanState, s: StripState, cs: seq<TomlLine>)
    requires cs != [] && !cs[0].isHeader && s.table.None?
    requires cs[0].continuation <==> !st.Fresh()
    requires Lead(cs).None?
    ensures var (keep, s') := StripStep(s, cs);
      && s'.table.None?
      && (if keep then KeptState(st, s) == st && KeptState(st', s') == st' else KeptState(st, s) == KeptState(st', s'))
  {}

  /** At the root the recovering pass treats kept and dropped lines as the plain one does. */
  lemma RecoveredStep(st: ScanState, s: StripState, ls: seq<Line>)
    requires ls != [] && Lead(Classify(st, ls, true)).None? && s.table.None? && Shape(ls[0]).None?
    ensures var (keep, s') := StripStep(s, Classify(st, ls, true));
      var st' := NextState(st, ls[0], true);
      && s'.table.None?
      && (if keep then KeptState(st, s) == st && KeptState(st', s') == st' else KeptState(st, s) == KeptState(st', s'))
  {
    RootStepAligned(st, NextState(st, ls[0], true), s, Classify(st, ls, true));
  }

  /** The root that survives a recovering pass is clean when read by one again. In a
      run that leads up to a header the two need not be in step. */
  lemma {:induction false} RecoveredRootIsClean(st: ScanState, stK: ScanState, s: StripState, ls: seq<Line>)
    requires s.table == Some(MANAGED_TABLE)
      || (s.table.None? && (stK == KeptState(st, s) || Lead(Classify(st, ls, true)).Some?))
    ensures CleanUntilHeader(Classify(stK, Texts(Strip(s, Classify(st, ls, true))), true))
    decreases |ls|
  {
    if ls != [] {
      var cs := Classify(st, ls, true);
      var (keep, s') := StripStep(s, cs);
      var st' := NextState(st, ls[0], true);
      assert cs[1..] == Classify(st', ls[1..], true);
      StripCons(s, cs);
      if Shape(ls[0]).Some? {
        if keep {
        } else {
          RecoveredRootIsClean(st', stK, s', ls[1..]);
        }
      } else {
        KeptLineIsClean(s, cs);
        if Lead(cs).Some? {
          LeadIsFiller(cs);
        } else if s.table.None? {
          RecoveredStep(st, s, ls);
        }
        var stK' := if keep then NextState(stK, ls[0], true) else stK;
        RecoveredRootIsClean(st', stK', s', ls[1..]);
        if keep {
          RecoveredLineKept(stK, s, cs);
        }
      }
    }
  }

  lemma RecoveredLineKept(stK: ScanState, s: StripState, cs: seq<TomlLine>)
    requires cs != [] && StripStep(s, cs).0 && Shape(cs[0].text).None?
    requires cs[0].continuation ==> !stK.Fresh() || Filler(cs[0].text)
    requires cs[0].continuation || !ManagedKey(cs[0].text)
    requires CleanUntilHeader(Classify(NextState(stK, cs[0].text, true),
      Texts(Strip(StripStep(s, cs).1, cs[1..])), true))
    ensures CleanUntilHeader(Classify(stK, Texts(Strip(s, cs)), true))
  {
    TextsCons(cs[0], Strip(StripStep(s, cs).1, cs[1..]));
    if Filler(cs[0].text) {
      FillerIsNotManagedKey(cs[0].text);
    }
  }
}
