/** Whether one merge is enough: what a second strip makes of a merged file, and
    when it leaves a value cut in two. */
module TomlLasting {
  import opened Text
  import opened TomlScan
  import opened TomlSections
  import opened TomlStrip
  import opened TomlStability
  import opened TomlAssembly
  import opened TomlRedelivery
  import opened TomlConvergence

  const BLANK: TomlLine := TomlLine("", false, "", false)

  /** The two parts of the kept lines once the tool's lines have been taken out of
      the first one again. */
  function Restripped(k: Parts): seq<TomlLine> {
    Strip(AT_ROOT, Classify(FRESH, k.root, false)) + Classify(FRESH, k.tables, false)
  }

  // ---- what follows matters by where it leads ----

  lemma {:induction false} LeadByNext(a: seq<TomlLine>, x: seq<TomlLine>, y: seq<TomlLine>)
    requires Lead(x) == Lead(y)
    ensures Lead(a + x) == Lead(a + y)
  {
    if a == [] {
      assert a + x == x && a + y == y;
    } else {
      assert (a + x)[0] == (a + y)[0] == a[0] && (a + x)[1..] == a[1..] + x && (a + y)[1..] == a[1..] + y;
      LeadByNext(a[1..], x, y);
    }
  }

  lemma {:induction false} ApartByNext(a: seq<TomlLine>, x: seq<TomlLine>, y: seq<TomlLine>)
    requires Lead(x) == Lead(y) && Apart(x) && Apart(y)
    ensures Apart(a + x) <==> Apart(a + y)
  {
    if a == [] {
      assert a + x == x && a + y == y;
    } else {
      assert (a + x)[0] == (a + y)[0] == a[0] && (a + x)[1..] == a[1..] + x && (a + y)[1..] == a[1..] + y;
      LeadByNext(a, x, y);
      ApartByNext(a[1..], x, y);
    }
  }

  /** Blank lines above the kept tables change nothing. */
  lemma AboveTables(k: Parts)
    requires Sound(k, false)
    ensures var u, padded := Classify(FRESH, k.tables, false), [BLANK] + Classify(FRESH, Sep(k.tables), false);
      Lead(padded) == Lead(u) && Apart(padded) && Apart(u)
  {
    var u := Classify(FRESH, k.tables, false);
    SepApart(k.tables);
    BelowBlankApart(BLANK, Classify(FRESH, Sep(k.tables), false));
    if k.tables != [] {
      SepScan(FRESH, k.tables, false);
      LeadIsAHeader(u);
      BlanksLead(BLANK, u);
      BlanksLead(BLANK, [BLANK] + u);
    } else {
      assert Classify(FRESH, Sep(k.tables), false) == [];
      assert [BLANK][1..] == [];
    }
  }

  // ---- the merged file, stripped ----

  function RootLeft(k: Parts): seq<TomlLine> {
    Strip(StripState(None, true), Classify(FRESH, Sep(k.root), false))
  }

  lemma AssembledRestripped(f: Fragment, k: Parts)
    requires f.Valid() && Sound(k, false)
    ensures Strip(AT_ROOT, Scan(Assembled(f, k))) == RootLeft(k) + ([BLANK] + Classify(FRESH, Sep(k.tables), false))
  {
    var sep := Classify(FRESH, Sep(k.root), false);
    var s := StripAfter(StripState(None, true), sep);
    StripBySection(f, k, false);
    SepRootScan(k, false);
    RootStripStaysAtRoot(StripState(None, true), sep);
    TablesRunStrip(f, FRESH, false, s);
    SepTablesStrip(k, false);
  }

  lemma RootLeftIs(k: Parts)
    requires Sound(k, false)
    ensures k.root == [] ==> RootLeft(k) == []
    ensures k.root != [] ==> RootLeft(k) == [BLANK] + Strip(AT_ROOT, Classify(FRESH, k.root, false))
  {
    if k.root != [] {
      var cs := Classify(FRESH, Sep(k.root), false);
      SepScan(FRESH, k.root, false);
      SepRootScan(k, false);
      NoHeaderNoLead(cs);
      assert StripStep(StripState(None, true), cs) == (true, AT_ROOT);
      assert cs[1..] == Classify(FRESH, k.root, false);
    }
  }

  lemma {:induction false} StripHeaderless(s: StripState, cs: seq<TomlLine>)
    requires NoHeader(cs)
    ensures NoHeader(Strip(s, cs))
    decreases |cs|
  {
    if cs != [] {
      StripCons(s, cs);
      var (keep, s') := StripStep(s, cs);
      StripHeaderless(s', cs[1..]);
      HeaderlessCons(cs[0], Strip(s', cs[1..]), Strip(s, cs));
    }
  }

  lemma HeaderlessCons(c: TomlLine, rest: seq<TomlLine>, all: seq<TomlLine>)
    requires !c.isHeader && NoHeader(rest)
    requires all == rest || (all != [] && all[0] == c && all[1..] == rest)
    ensures NoHeader(all)
  {
    assert all != rest ==> forall i :: 1 <= i < |all| ==> all[i] == rest[i - 1];
  }

  /** The lines a second strip keeps, as it reads them, and how they are read by the
      next merge. */
  lemma KeptAgain(f: Fragment, k: Parts)
    requires f.Valid() && Sound(k, false)
    ensures var left := Kept(Assembled(f, k));
      && Closes(left) && NoManagedHeader(Scan(left))
      && Scan(left) == RootLeft(k) + ([BLANK] + Classify(FRESH, Sep(k.tables), false))
    ensures Closes(Assembled(f, k)) && Apart(Scan(Assembled(f, k)))
  {
    var m := Assembled(f, k);
    AssembledCloses(f, k, false);
    AssembledApart(f, k);
    KeptScansTheSame(FRESH, AT_ROOT, m);
    KeptHasNoManagedHeader(m);
    AssembledRestripped(f, k);
  }

  lemma RestrippedApart(k: Parts)
    requires Sound(k, false)
    ensures Apart(RootLeft(k) + ([BLANK] + Classify(FRESH, Sep(k.tables), false))) <==> Apart(Restripped(k))
  {
    var u, padded := Classify(FRESH, k.tables, false), [BLANK] + Classify(FRESH, Sep(k.tables), false);
    AboveTables(k);
    ApartByNext(RootLeft(k), padded, u);
    RootLeftIs(k);
    if k.root == [] {
      assert Restripped(k) == RootLeft(k) + u;
    } else {
      BlankAbove(Strip(AT_ROOT, Classify(FRESH, k.root, false)), u);
    }
  }

  lemma BlankAbove(a: seq<TomlLine>, u: seq<TomlLine>)
    ensures Apart([BLANK] + a + u) <==> Apart(a + u)
  {
    assert [BLANK] + a + u == [BLANK] + (a + u);
    assert ([BLANK] + (a + u))[1..] == a + u;
  }

  /** A merged file is whole exactly when the second strip leaves no line inside a
      value leading up to a header. */
  lemma AssembledWholeExactly(f: Fragment, k: Parts)
    requires f.Valid() && Sound(k, false)
    ensures Whole(Assembled(f, k)) <==> Apart(Restripped(k))
  {
    KeptAgain(f, k);
    RestrippedApart(k);
  }

  // ---- two conditions under which it holds ----

  /** No managed key in the first part: the second strip takes nothing. */
  lemma CleanRootLasts(k: Parts)
    requires Sound(k, false) && RootClean(Classify(FRESH, k.root, false))
    ensures Apart(Restripped(k))
  {
    var a, u := Classify(FRESH, k.root, false), Classify(FRESH, k.tables, false);
    KeepsRoot(a);
    NoHeaderApart(a);
    assert k.root != [] ==> a[|a| - 1].text == k.root[|k.root| - 1];
    ApartConcat(a, u);
  }

  /** No triple quote in a comment line. */
  lemma CleanCommentsLast(k: Parts)
    requires Sound(k, false) && CommentsClean(k.root) && CommentsClean(k.tables)
    ensures Apart(Restripped(k))
  {
    var left := Strip(AT_ROOT, Classify(FRESH, k.root, false));
    NoHeaderApart(Classify(FRESH, k.root, false));
    KeptScansTheSame(FRESH, AT_ROOT, k.root);
    ClassesConcat(FRESH, Texts(left), k.tables, false);
    StripTexts(AT_ROOT, k.root);
    CleanConcat(Texts(left), k.tables);
    CleanIsApart(FRESH, Texts(left) + k.tables);
  }

  lemma StripTexts(s: StripState, ls: seq<Line>)
    ensures forall l :: l in Texts(Strip(s, Classify(FRESH, ls, false))) ==> l in ls
  {
    var cs := Classify(FRESH, ls, false);
    StripMembers(s, cs);
    forall l | l in Texts(Strip(s, cs))
      ensures l in ls
    {
      var i :| 0 <= i < |Strip(s, cs)| && Strip(s, cs)[i].text == l;
      assert Strip(s, cs)[i] in cs;
    }
  }

  // ---- the cut inside a value ----

  /** Above the first header, a line that leads to it is inside a value only if the
      first line that leads to it is. */
  lemma {:induction false} FreshRun(ls: seq<Line>, i: nat)
    requires i < |ls| && Lead(Classify(FRESH, ls, false)).Some?
    requires forall j :: 0 <= j <= i ==> !Classify(FRESH, ls, false)[j].isHeader
    ensures !Classify(FRESH, ls, false)[i].continuation
    decreases |ls|
  {
    var cs := Classify(FRESH, ls, false);
    ClassifyFirst(FRESH, ls, false);
    if i > 0 {
      FreshFiller(ls[0], false);
      assert cs[1..] == Classify(FRESH, ls[1..], false);
      assert forall j :: 0 <= j <= i - 1 ==> cs[1..][j] == cs[j + 1];
      FreshRun(ls[1..], i - 1);
    }
  }

  lemma {:induction false} NotApartAt(a: seq<TomlLine>, x: seq<TomlLine>) returns (i: nat)
    requires !Apart(a + x) && Apart(x)
    ensures i < |a| && a[i].continuation && Lead((a + x)[i..]).Some?
    decreases |a|
  {
    i := 0;
    assert a == [] ==> a + x == x;
    assert (a + x)[0..] == a + x;
    if !(Lead(a + x).Some? && (a + x)[0].continuation) {
      assert (a + x)[1..] == a[1..] + x;
      var j := NotApartAt(a[1..], x);
      i := j + 1;
      assert (a + x)[i..] == (a[1..] + x)[j..];
    }
  }

  lemma CutWhereApartFails(ls: seq<Line>, a: seq<TomlLine>, x: seq<TomlLine>)
    requires Closes(ls) && Scan(ls) == a + x && NoHeader(a)
    requires !Apart(a + x) && Apart(x)
    ensures EndState(FRESH, RootPart(ls), false) != FRESH
  {
    var i := NotApartAt(a, x);
    CutScan(ls);
    FreshCut(Scan(ls), a, TablesPart(ls), SplitIndex(Scan(ls)), i, EndState(FRESH, RootPart(ls), false));
  }

  lemma FreshCut(cs: seq<TomlLine>, a: seq<TomlLine>, b: seq<Line>, p: nat, i: nat, st: ScanState)
    requires i < |a| && a <= cs && NoHeader(a) && a[i].continuation
    requires p <= i && cs[p..] == Classify(st, b, false) && Lead(cs[p..]).Some?
    ensures st != FRESH
  {
    if st == FRESH {
      assert forall j :: 0 <= j <= i - p ==> cs[p..][j] == cs[p + j] == a[p + j];
      FreshRun(b, i - p);
    }
  }

  /** Otherwise the next cut falls inside a value. */
  lemma CutInsideValue(f: Fragment, k: Parts)
    requires f.Valid() && Sound(k, false) && !Apart(Restripped(k))
    ensures var left := Kept(Assembled(f, k));
      && Closes(left) && EndState(FRESH, RootPart(left), false) != FRESH
      && ManagedHeaders(Scan(left)) == 0
  {
    var left := Kept(Assembled(f, k));
    KeptAgain(f, k);
    RestrippedApart(k);
    AboveTables(k);
    SepRootScan(k, false);
    StripHeaderless(StripState(None, true), Classify(FRESH, Sep(k.root), false));
    CutWhereApartFails(left, RootLeft(k), [BLANK] + Classify(FRESH, Sep(k.tables), false));
    NoManagedHeaders(Scan(left));
  }
}
