/** What a config.toml says: every line that is part of a header or a value, with
    the table it belongs to. The merge changes this in the tool's part only. */
module TomlMeaning {
  import opened Text
  import opened TomlScan
  import opened TomlSections
  import opened TomlStrip
  import opened TomlStability
  import opened TomlAssembly
  import opened TomlRedelivery
  import opened TomlConvergence
  import opened TomlMerge

  /** One line of a header or a value: its table, the line its statement begins
      with, and whether it is that line. */
  datatype Entry = Entry(table: Option<string>, head: Line, text: Line, first: bool)

  /** What one line adds: a line belongs to the last header before it; blanks and
      comments outside values say nothing. */
  function LineEntries(table: Option<string>, head: Line, c: TomlLine): seq<Entry> {
    if c.isHeader then [Entry(Some(c.header), c.text, c.text, true)]
    else if c.continuation then [Entry(table, head, c.text, false)]
    else if Filler(c.text) then []
    else [Entry(table, c.text, c.text, true)]
  }

  /** The first line of the statement that a following continuation belongs to. */
  function NextHead(head: Line, c: TomlLine): Line {
    if !c.isHeader && (c.continuation || Filler(c.text)) then head else c.text
  }

  /** The entries of classified lines, read in table `table` after head `head`. */
  function Read(table: Option<string>, head: Line, cs: seq<TomlLine>): seq<Entry>
    decreases |cs|
  {
    if cs == [] then []
    else LineEntries(table, head, cs[0]) + Read(Enter(table, cs[0]), NextHead(head, cs[0]), cs[1..])
  }

  /** The meaning of a file. */
  function Doc(ls: seq<Line>): seq<Entry> {
    Read(None, "", Scan(ls))
  }

  /** The tool owns its table and its keys at the root, with their whole values. */
  predicate Managed(e: Entry) {
    e.table == Some(MANAGED_TABLE) || (e.table.None? && ManagedKey(e.head))
  }

  function Ours(es: seq<Entry>): seq<Entry> {
    if es == [] then [] else (if Managed(es[0]) then [es[0]] else []) + Ours(es[1..])
  }

  function Theirs(es: seq<Entry>): seq<Entry> {
    if es == [] then [] else (if Managed(es[0]) then [] else [es[0]]) + Theirs(es[1..])
  }

  lemma {:induction false} OursConcat(a: seq<Entry>, b: seq<Entry>)
    ensures Ours(a + b) == Ours(a) + Ours(b)
  {
    if a == [] {
      assert a + b == b;
    } else {
      assert (a + b)[0] == a[0] && (a + b)[1..] == a[1..] + b;
      OursConcat(a[1..], b);
    }
  }

  lemma {:induction false} TheirsConcat(a: seq<Entry>, b: seq<Entry>)
    ensures Theirs(a + b) == Theirs(a) + Theirs(b)
  {
    if a == [] {
      assert a + b == b;
    } else {
      assert (a + b)[0] == a[0] && (a + b)[1..] == a[1..] + b;
      TheirsConcat(a[1..], b);
    }
  }

  lemma {:induction false} TheirsAgain(es: seq<Entry>)
    ensures Theirs(Theirs(es)) == Theirs(es) && Ours(Theirs(es)) == []
  {
    if es != [] {
      TheirsAgain(es[1..]);
      if Managed(es[0]) {
        assert Theirs(es) == Theirs(es[1..]);
      } else {
        assert Theirs(es)[1..] == Theirs(es[1..]);
      }
    }
  }

  lemma {:induction false} AllOurs(es: seq<Entry>)
    requires forall i :: 0 <= i < |es| ==> Managed(es[i])
    ensures Ours(es) == es && Theirs(es) == []
  {
    if es != [] {
      AllOurs(es[1..]);
      assert [es[0]] + es[1..] == es;
    }
  }

  // ---- the strip keeps exactly the employee's meaning ----

  /** How the state of the strip and of the reader of the kept lines hang together. */
  predicate Aligned(st: ScanState, s: StripState, head: Line, tableK: Option<string>, headK: Line) {
    && (s.table != Some(MANAGED_TABLE) ==> tableK == s.table)
    && (s.drop ==> s.table.None?)
    && (!st.Fresh() ==> (s.drop <==> s.table.None? && ManagedKey(head)))
    && (!st.Fresh() && s.table != Some(MANAGED_TABLE) && !s.drop ==> headK == head)
  }

  lemma TheirsOfOne(es: seq<Entry>)
    requires |es| <= 1
    ensures Theirs(es) == if es == [] || Managed(es[0]) then [] else es
  {}

  /** One line, kept or dropped, with what its neighbourhood tells about it. */
  lemma {:induction false} StepOnLine(st: ScanState, st': ScanState, s: StripState, head: Line, tableK: Option<string>,
    headK: Line, cs: seq<TomlLine>)
    requires cs != [] && Aligned(st, s, head, tableK, headK)
    requires cs[0].continuation <==> !cs[0].isHeader && !st.Fresh()
    requires cs[0].isHeader ==> st'.Fresh()
    requires !cs[0].isHeader && Lead(cs).Some? ==> st.Fresh() && Filler(cs[0].text)
    requires !cs[0].isHeader && st.Fresh() && Filler(cs[0].text) ==> st'.Fresh()
    ensures var (keep, s') := StripStep(s, cs);
      && s'.table == Enter(s.table, cs[0])
      && Aligned(st', s', NextHead(head, cs[0]), if keep then Enter(tableK, cs[0]) else tableK,
                 if keep then NextHead(headK, cs[0]) else headK)
      && Theirs(LineEntries(s.table, head, cs[0])) == if keep then LineEntries(tableK, headK, cs[0]) else []
  {
    TheirsOfOne(LineEntries(s.table, head, cs[0]));
  }

  lemma StepOnScan(st: ScanState, s: StripState, head: Line, tableK: Option<string>, headK: Line, ls: seq<Line>)
    requires ls != [] && Apart(Classify(st, ls, false)) && Aligned(st, s, head, tableK, headK)
    ensures var cs := Classify(st, ls, false);
      var (keep, s') := StripStep(s, cs);
      && s'.table == Enter(s.table, cs[0])
      && Aligned(NextState(st, ls[0], false), s', NextHead(head, cs[0]), if keep then Enter(tableK, cs[0]) else tableK,
                 if keep then NextHead(headK, cs[0]) else headK)
      && Theirs(LineEntries(s.table, head, cs[0])) == if keep then LineEntries(tableK, headK, cs[0]) else []
  {
    var cs := Classify(st, ls, false);
    if !cs[0].isHeader {
      if Lead(cs).Some? {
        FreshLead(st, ls);
        LeadIsFiller(cs);
      }
      if Filler(ls[0]) {
        FreshFiller(ls[0], false);
      }
    }
    StepOnLine(st, NextState(st, ls[0], false), s, head, tableK, headK, cs);
  }

  lemma {:induction false} KeptReads(st: ScanState, s: StripState, head: Line, tableK: Option<string>, headK: Line,
    ls: seq<Line>)
    requires Apart(Classify(st, ls, false)) && Aligned(st, s, head, tableK, headK)
    ensures Read(tableK, headK, Strip(s, Classify(st, ls, false)))
      == Theirs(Read(s.table, head, Classify(st, ls, false)))
    decreases |ls|
  {
    if ls != [] {
      var cs := Classify(st, ls, false);
      var (keep, s') := StripStep(s, cs);
      var st' := NextState(st, ls[0], false);
      assert cs[1..] == Classify(st', ls[1..], false);
      StripCons(s, cs);
      StepOnScan(st, s, head, tableK, headK, ls);
      KeptReads(st', s', NextHead(head, cs[0]), if keep then Enter(tableK, cs[0]) else tableK,
        if keep then NextHead(headK, cs[0]) else headK, ls[1..]);
      OursConcat(LineEntries(s.table, head, cs[0]), Read(Enter(s.table, cs[0]), NextHead(head, cs[0]), cs[1..]));
      TheirsConcat(LineEntries(s.table, head, cs[0]), Read(Enter(s.table, cs[0]), NextHead(head, cs[0]), cs[1..]));
    }
  }

  // ---- reading a file in sections ----

  function HeadAfter(head: Line, cs: seq<TomlLine>): Line
    decreases |cs|
  {
    if cs == [] then head else HeadAfter(NextHead(head, cs[0]), cs[1..])
  }

  lemma {:induction false} ReadConcat(table: Option<string>, head: Line, a: seq<TomlLine>, b: seq<TomlLine>)
    ensures Read(table, head, a + b) == Read(table, head, a) + Read(TableAfter(table, a), HeadAfter(head, a), b)
    decreases |a|
  {
    if a == [] {
      assert a + b == b;
    } else {
      assert (a + b)[1..] == a[1..] + b;
      ReadConcat(Enter(table, a[0]), NextHead(head, a[0]), a[1..], b);
    }
  }

  /** A section entered outside every value does not depend on the statement before it. */
  lemma {:induction false} ReadIgnoresHead(table: Option<string>, head: Line, head': Line, ls: seq<Line>)
    ensures Read(table, head, Classify(FRESH, ls, false)) == Read(table, head', Classify(FRESH, ls, false))
    decreases |ls|
  {
    if ls != [] {
      var cs := Classify(FRESH, ls, false);
      if !cs[0].isHeader && Filler(ls[0]) {
        FreshFiller(ls[0], false);
        assert cs[1..] == Classify(FRESH, ls[1..], false);
        ReadIgnoresHead(table, head, head', ls[1..]);
      }
    }
  }

  /** A section that leads up to a header does not depend on the table before it either. */
  lemma {:induction false} ReadLed(table: Option<string>, head: Line, table': Option<string>, head': Line,
    ls: seq<Line>)
    requires Lead(Classify(FRESH, ls, false)).Some?
    ensures Read(table, head, Classify(FRESH, ls, false)) == Read(table', head', Classify(FRESH, ls, false))
    decreases |ls|
  {
    var cs := Classify(FRESH, ls, false);
    if !cs[0].isHeader {
      LeadIsFiller(cs);
      FreshFiller(ls[0], false);
      assert cs[1..] == Classify(FRESH, ls[1..], false);
      ReadLed(table, head, table', head', ls[1..]);
    }
  }

  lemma {:induction false} ReadBlanks(table: Option<string>, head: Line, ls: seq<Line>)
    requires AllBlank(ls)
    ensures Read(table, head, Classify(FRESH, ls, false)) == []
    ensures TableAfter(table, Classify(FRESH, ls, false)) == table
    ensures HeadAfter(head, Classify(FRESH, ls, false)) == head
    decreases |ls|
  {
    if ls != [] {
      assert ls[0] in ls;
      BlankKeepsState(FRESH, ls[0]);
      assert Classify(FRESH, ls, false)[1..] == Classify(FRESH, ls[1..], false);
      ReadBlanks(table, head, ls[1..]);
    }
  }

  /** Blank lines around a section that closes add nothing to what it says. */
  lemma ReadTrimmed(table: Option<string>, head: Line, ls: seq<Line>)
    requires EndState(FRESH, ls, false) == FRESH
    ensures Read(table, head, Classify(FRESH, ls, false)) == Read(table, head, Classify(FRESH, TrimBlank(ls), false))
  {
    var pre, post := TrimKeepsScan(FRESH, ls, false);
    var t := TrimBlank(ls);
    var a, m, b := Classify(FRESH, pre, false), Classify(FRESH, t, false), Classify(FRESH, post, false);
    ReadConcat(table, head, a + m, b);
    ReadConcat(table, head, a, m);
    ReadBlanks(table, head, pre);
    ReadBlanks(TableAfter(table, a + m), HeadAfter(head, a + m), post);
  }

  lemma ReadSep(table: Option<string>, head: Line, ls: seq<Line>)
    ensures Read(table, head, Classify(FRESH, Sep(ls), false)) == Read(table, head, Classify(FRESH, ls, false))
    ensures TableAfter(table, Classify(FRESH, Sep(ls), false)) == TableAfter(table, Classify(FRESH, ls, false))
  {
    SepScan(FRESH, ls, false);
    assert Blank("");
    if ls != [] {
      assert Classify(FRESH, Sep(ls), false)[1..] == Classify(FRESH, ls, false);
    }
  }

  lemma {:induction false} NoHeaderSameTable(table: Option<string>, cs: seq<TomlLine>)
    requires NoHeader(cs)
    ensures TableAfter(table, cs) == table
    decreases |cs|
  {
    if cs != [] {
      NoHeaderSameTable(table, cs[1..]);
    }
  }

  // ---- the delivered sections are the tool's ----

  lemma {:induction false} RootRead(head: Line, ls: seq<Line>)
    requires forall l :: l in ls ==> RootLine(l)
    ensures |Read(None, head, Classify(FRESH, ls, false))| == |ls|
    ensures forall i :: 0 <= i < |ls| ==>
      Read(None, head, Classify(FRESH, ls, false))[i] == Entry(None, ls[i], ls[i], true)
    decreases |ls|
  {
    if ls != [] {
      assert RootLine(ls[0]) by {
        assert ls[0] in ls;
      }
      ManagedKeyIsNotFiller(ls[0]);
      assert Classify(FRESH, ls, false)[1..] == Classify(FRESH, ls[1..], false);
      RootRead(ls[0], ls[1..]);
    }
  }

  lemma RootIsOurs(f: Fragment)
    requires f.Valid()
    ensures var es := Read(None, "", Classify(FRESH, f.root, false));
      Ours(es) == es && Theirs(es) == []
  {
    RootRead("", f.root);
    var es := Read(None, "", Classify(FRESH, f.root, false));
    forall i | 0 <= i < |es|
      ensures Managed(es[i])
    {
      assert f.root[i] in f.root && RootLine(f.root[i]);
    }
    AllOurs(es);
  }

  lemma {:induction false} BodyRead(head: Line, cs: seq<TomlLine>)
    requires NoHeader(cs)
    ensures forall e :: e in Read(Some(MANAGED_TABLE), head, cs) ==> e.table == Some(MANAGED_TABLE)
    decreases |cs|
  {
    if cs != [] {
      BodyRead(NextHead(head, cs[0]), cs[1..]);
    }
  }

  lemma {:induction false} NotesRead(table: Option<string>, head: Line, ls: seq<Line>)
    requires forall l :: l in ls ==> Comment(l) && !HasTriple(l)
    ensures Read(table, head, Classify(FRESH, ls, false)) == []
    ensures TableAfter(table, Classify(FRESH, ls, false)) == table
    ensures HeadAfter(head, Classify(FRESH, ls, false)) == head
    decreases |ls|
  {
    if ls != [] {
      assert ls[0] in ls;
      CommentKeepsState(FRESH, ls[0]);
      assert Classify(FRESH, ls, false)[1..] == Classify(FRESH, ls[1..], false);
      NotesRead(table, head, ls[1..]);
    }
  }

  /** What the delivered table says: its header, then its body. */
  lemma TablesRead(f: Fragment, table: Option<string>, head: Line)
    requires f.Valid()
    ensures Read(table, head, Classify(FRESH, f.Tables(), false))
      == [Entry(Some(MANAGED_TABLE), f.header, f.header, true)]
         + Read(Some(MANAGED_TABLE), f.header, Classify(FRESH, f.body, false))
    ensures TableAfter(table, Classify(FRESH, f.Tables(), false)) == Some(MANAGED_TABLE)
  {
    TablesScan(f, FRESH, false);
    var n, h, b := Classify(FRESH, f.notes, false), TomlLine(f.header, true, MANAGED_TABLE, false),
      Classify(FRESH, f.body, false);
    ReadConcat(table, head, n, [h] + b);
    TableAfterConcat(table, n, [h] + b);
    NotesRead(table, head, f.notes);
    assert ([h] + b)[1..] == b;
    NoHeaderSameTable(Some(MANAGED_TABLE), b);
  }

  lemma TablesAreOurs(f: Fragment, table: Option<string>, head: Line)
    requires f.Valid()
    ensures var es := Read(table, head, Classify(FRESH, f.Tables(), false));
      && Ours(es) == es && Theirs(es) == []
      && es == Read(None, "", Classify(FRESH, f.Tables(), false))
    ensures TableAfter(table, Classify(FRESH, f.Tables(), false)) == Some(MANAGED_TABLE)
  {
    TablesRead(f, table, head);
    TablesRead(f, None, "");
    TablesScan(f, FRESH, false);
    var b := Classify(FRESH, f.body, false);
    BodyRead(f.header, b);
    var es := Read(table, head, Classify(FRESH, f.Tables(), false));
    forall i | 0 <= i < |es|
      ensures Managed(es[i])
    {
      assert i > 0 ==> es[i] == Read(Some(MANAGED_TABLE), f.header, b)[i - 1];
    }
    AllOurs(es);
  }
  // ---- the merged file ----

  /** What a merged file says, section by section. */
  lemma AssembledReads(f: Fragment, k: Parts)
    requires f.Valid() && Sound(k, false)
    ensures Doc(Assembled(f, k))
      == Read(None, "", Classify(FRESH, f.root, false))
       + (Read(None, "", Classify(FRESH, k.root, false))
          + (Read(None, "", Classify(FRESH, f.Tables(), false)) + Read(None, "", Classify(FRESH, k.tables, false))))
  {
    AssembledScan(f, k, false);
    var r, a := Classify(FRESH, f.root, false), Classify(FRESH, Sep(k.root), false);
    var t, u := Classify(FRESH, Sep(f.Tables()), false), Classify(FRESH, Sep(k.tables), false);
    assert Sep(f.Tables()) == [""] + f.Tables();
    RootHeaderless(f, false);
    NoHeaderSameTable(None, r);
    SepRootScan(k, false);
    NoHeaderSameTable(None, a);
    var h := HeadAfter("", r);
    var h2 := HeadAfter(h, a);
    var h3 := HeadAfter(h2, t);
    ReadConcat(None, "", r, a + (t + u));
    ReadConcat(None, h, a, t + u);
    ReadConcat(None, h2, t, u);
    ReadSep(None, h, k.root);
    ReadIgnoresHead(None, h, "", k.root);
    ReadSep(None, h2, f.Tables());
    TablesAreOurs(f, None, h2);
    ReadSep(Some(MANAGED_TABLE), h3, k.tables);
    if k.tables != [] {
      ReadLed(Some(MANAGED_TABLE), h3, None, "", k.tables);
    }
  }

  /** What the surviving lines say is what their two parts say. */
  lemma PartsRead(kept: seq<Line>)
    requires Apart(Scan(kept)) && Closes(kept)
    ensures var k := PartsOf(kept);
      Doc(kept) == Read(None, "", Classify(FRESH, k.root, false)) + Read(None, "", Classify(FRESH, k.tables, false))
  {
    var a, b := RootPart(kept), TablesPart(kept);
    CutScan(kept);
    assert kept == a + b;
    ClassifyConcat(FRESH, a, b, false);
    if b != [] {
      TablesEntry(kept);
    }
    assert EndState(FRESH, a, false) == FRESH;
    var ca, cb := Classify(FRESH, a, false), Classify(FRESH, b, false);
    ReadConcat(None, "", ca, cb);
    RootHasNoHeader(kept);
    NoHeaderSameTable(None, ca);
    ReadIgnoresHead(None, HeadAfter("", ca), "", b);
    ReadTrimmed(None, "", a);
    ReadTrimmed(None, "", b);
  }

  lemma FragmentReads(f: Fragment)
    requires f.Valid()
    ensures Doc(f.AllLines())
      == Read(None, "", Classify(FRESH, f.root, false)) + Read(None, "", Classify(FRESH, f.Tables(), false))
  {
    FragmentCloses(f);
    var r, t := Classify(FRESH, f.root, false), Classify(FRESH, Sep(f.Tables()), false);
    SepScan(FRESH, f.Tables(), false);
    RootHeaderless(f, false);
    NoHeaderSameTable(None, r);
    ReadConcat(None, "", r, t);
    ReadSep(None, HeadAfter("", r), f.Tables());
    TablesAreOurs(f, None, HeadAfter("", r));
  }

  lemma HalvesAreTheirs(a: seq<Entry>, u: seq<Entry>)
    requires Ours(a + u) == [] && Theirs(a + u) == a + u
    ensures Ours(a) == [] && Theirs(a) == a && Ours(u) == [] && Theirs(u) == u
  {
    OursConcat(a, u);
    TheirsConcat(a, u);
    TheirsIsPart(a);
    TheirsIsPart(u);
    SameSplit(Theirs(a), Theirs(u), a, u);
    SameSplit(Ours(a), Ours(u), [], []);
  }

  lemma FilterFour(r: seq<Entry>, a: seq<Entry>, t: seq<Entry>, u: seq<Entry>)
    requires Ours(r) == r && Theirs(r) == [] && Ours(t) == t && Theirs(t) == []
    requires Ours(a + u) == [] && Theirs(a + u) == a + u
    ensures Ours(r + (a + (t + u))) == r + t && Theirs(r + (a + (t + u))) == a + u
  {
    HalvesAreTheirs(a, u);
    OursConcat(t, u);
    TheirsConcat(t, u);
    assert Ours(t + u) == t && Theirs(t + u) == u;
    OursConcat(a, t + u);
    TheirsConcat(a, t + u);
    assert Ours(a + (t + u)) == t && Theirs(a + (t + u)) == a + u;
    OursConcat(r, a + (t + u));
    TheirsConcat(r, a + (t + u));
  }

  lemma {:induction false} TheirsIsPart(es: seq<Entry>)
    ensures |Theirs(es)| <= |es|
  {
    if es != [] {
      TheirsIsPart(es[1..]);
    }
  }

  lemma SameSplit(a: seq<Entry>, u: seq<Entry>, a': seq<Entry>, u': seq<Entry>)
    requires a + u == a' + u' && ((|a| <= |a'| && |u| <= |u'|) || (|a'| <= |a| && |u'| <= |u|))
    ensures a == a' && u == u'
  {
    assert a == (a + u)[..|a|] && a' == (a' + u')[..|a'|];
    assert u == (a + u)[|a|..] && u' == (a' + u')[|a'|..];
  }

  /** The merge replaces what the file says in the tool's part by what the
      fragment says, and leaves everything else said as it was: same text, same
      order, same table. */
  lemma MergeMeaning(existing: seq<Line>, f: Fragment, allowed: seq<string>)
    requires Whole(existing) && Closes(existing) && f.Valid()
    ensures Theirs(Doc(Merge(existing, f, allowed))) == Theirs(Doc(existing))
    ensures Ours(Doc(Merge(existing, f, allowed))) == Doc(Chosen(f, existing, allowed).AllLines())
  {
    var kept := Kept(existing);
    var k, f1 := PartsOf(kept), Chosen(f, existing, allowed);
    KeptScansTheSame(FRESH, AT_ROOT, existing);
    KeptReads(FRESH, AT_ROOT, "", None, "", existing);
    SurvivingPartsSound(existing);
    ChosenValid(f, existing, allowed);
    PartsRead(kept);
    AssembledReads(f1, k);
    FragmentReads(f1);
    RootIsOurs(f1);
    TablesAreOurs(f1, None, "");
    TheirsAgain(Doc(existing));
    FilterFour(Read(None, "", Classify(FRESH, f1.root, false)), Read(None, "", Classify(FRESH, k.root, false)),
      Read(None, "", Classify(FRESH, f1.Tables(), false)), Read(None, "", Classify(FRESH, k.tables, false)));
  }
}
