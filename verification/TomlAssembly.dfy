/** The merged file: the delivered fragment and what survives of the existing
    file, interleaved so that no root key ends up inside a table. */
module TomlAssembly {
  import opened Text
  import opened TomlScan
  import opened TomlSections
  import opened TomlStrip
  import opened TomlStability

  // ---- putting sections together ----

  /** appendTomlSection on lines. */
  function Append(out: seq<Line>, section: seq<Line>): seq<Line> {
    Glue(out, TrimBlank(section))
  }

  function Glue(out: seq<Line>, t: seq<Line>): seq<Line> {
    if t == [] then out else (if out == [] then [] else out + [""]) + t
  }

  function RootPart(ls: seq<Line>): seq<Line> {
    ls[..SplitIndex(Scan(ls))]
  }

  function TablesPart(ls: seq<Line>): seq<Line> {
    ls[SplitIndex(Scan(ls))..]
  }

  /** The four sections in the order they are written. */
  function Assemble(incoming: seq<Line>, kept: seq<Line>): seq<Line> {
    Append(Append(Append(Append([], RootPart(incoming)), RootPart(kept)), TablesPart(incoming)), TablesPart(kept))
  }

  // ---- the shape of a delivered fragment ----

  /** Whatever value is still open above it, the line leaves it open. */
  ghost predicate Neutral(l: Line) {
    forall st :: Advance(st, l, 0) == st
  }

  ghost predicate NeutralBlock(ls: seq<Line>) {
    forall st :: EndState(st, ls, false) == st
  }

  /** A one-line assignment of a managed key. */
  predicate RootLine(l: Line) {
    ManagedKey(l) && Shape(l).None? && Advance(FRESH, l, 0) == FRESH
  }

  datatype Fragment = Fragment(root: seq<Line>, notes: seq<Line>, header: Line, body: seq<Line>) {

    function Tables(): seq<Line> {
      notes + [header] + body
    }

    function AllLines(): seq<Line> {
      root + [""] + Tables()
    }

    /** One-line managed assignments, one blank line, comments touching the
        managed header, that header, and a body of closed values. */
    ghost predicate Valid() {
      && root != []
      && (forall l :: l in root ==> RootLine(l))
      && (forall l :: l in notes ==> Comment(l) && !HasTriple(l))
      && Shape(header) == Some(MANAGED_TABLE) && Neutral(header)
      && (forall l :: l in body ==> Shape(l).None?)
      && CommentsClean(body) && EndState(FRESH, body, false) == FRESH
      && (body != [] ==> !Filler(body[|body| - 1]))
    }

    /** A value left open above the body stays open over it. */
    ghost predicate Sealed() {
      NeutralBlock(body)
    }

    /** What a merge asks for: sealed when the employee's part does not close. */
    ghost predicate ValidFor(open: bool) {
      Valid() && (open ==> Sealed())
    }
  }

  // ---- concatenation ----

  /** The last line of a is part of no run that could lead past the end of a. */
  predicate Stops(a: seq<TomlLine>) {
    a != [] && (a[|a| - 1].isHeader || !Filler(a[|a| - 1].text))
  }

  lemma {:induction false} LeadConcat(a: seq<TomlLine>, b: seq<TomlLine>)
    requires a != [] && (Stops(a) || Lead(b).None?)
    ensures Lead(a + b) == Lead(a)
  {
    assert (a + b)[1..] == a[1..] + b;
    if |a| == 1 {
      assert a[1..] + b == b;
    } else {
      LeadConcat(a[1..], b);
    }
  }

  /** What happens to the first line depends on the run it leads, not on the rest. */
  lemma StripStepDependsOnLead(s: StripState, cs: seq<TomlLine>, cs': seq<TomlLine>)
    requires cs != [] && cs' != [] && cs[0] == cs'[0] && Lead(cs) == Lead(cs')
    ensures StripStep(s, cs) == StripStep(s, cs')
  {}

  lemma {:induction false} StripAfterConcat(s: StripState, a: seq<TomlLine>, b: seq<TomlLine>)
    requires a == [] || Stops(a) || Lead(b).None?
    ensures StripAfter(s, a + b) == StripAfter(StripAfter(s, a), b)
    decreases |a|
  {
    if a == [] {
      assert a + b == b;
    } else {
      assert (a + b)[1..] == a[1..] + b;
      LeadConcat(a, b);
      StripStepDependsOnLead(s, a + b, a);
      StripAfterConcat(StripStep(s, a).1, a[1..], b);
    }
  }

  lemma {:induction false} KeptConcat(s: StripState, a: seq<TomlLine>, b: seq<TomlLine>)
    requires a == [] || Stops(a) || Lead(b).None?
    ensures Strip(s, a + b) == Strip(s, a) + Strip(StripAfter(s, a), b)
    decreases |a|
  {
    if a == [] {
      assert a + b == b;
    } else {
      assert (a + b)[1..] == a[1..] + b;
      LeadConcat(a, b);
      StripStepDependsOnLead(s, a + b, a);
      KeptConcat(StripStep(s, a).1, a[1..], b);
    }
  }

  lemma StripConcat(s: StripState, a: seq<TomlLine>, b: seq<TomlLine>)
    requires a == [] || Stops(a) || Lead(b).None?
    ensures Strip(s, a + b) == Strip(s, a) + Strip(StripAfter(s, a), b)
    ensures StripAfter(s, a + b) == StripAfter(StripAfter(s, a), b)
  {
    StripAfterConcat(s, a, b);
    KeptConcat(s, a, b);
  }

  lemma {:induction false} NoHeaderNoLead(cs: seq<TomlLine>)
    requires forall i :: 0 <= i < |cs| ==> !cs[i].isHeader
    ensures Lead(cs).None?
  {
    if cs != [] {
      NoHeaderNoLead(cs[1..]);
    }
  }

  lemma SplitIndexIs(cs: seq<TomlLine>, p: nat)
    requires p <= |cs|
    requires forall i :: 0 <= i < p ==> Lead(cs[i..]).None?
    requires p < |cs| ==> Lead(cs[p..]).Some?
    ensures SplitIndex(cs) == p
  {}

  /** In the recovering pass a header is a header whatever stands above it. */
  lemma {:induction false} LeadIgnoresState(st: ScanState, st': ScanState, ls: seq<Line>)
    ensures Lead(Classify(st, ls, true)) == Lead(Classify(st', ls, true))
    decreases |ls|
  {
    if ls != [] {
      LeadIgnoresState(NextState(st, ls[0], true), NextState(st', ls[0], true), ls[1..]);
      assert Classify(st, ls, true)[1..] == Classify(NextState(st, ls[0], true), ls[1..], true);
      assert Classify(st', ls, true)[1..] == Classify(NextState(st', ls[0], true), ls[1..], true);
    }
  }

  lemma {:induction false} NoShapeSamePass(st: ScanState, ls: seq<Line>)
    requires forall l :: l in ls ==> Shape(l).None?
    ensures EndState(st, ls, true) == EndState(st, ls, false)
    ensures Classify(st, ls, true) == Classify(st, ls, false)
    decreases |ls|
  {
    if ls != [] {
      assert ls[0] in ls;
      NoShapeSamePass(NextState(st, ls[0], true), ls[1..]);
    }
  }

  lemma {:induction false} FillersKeepState(st: ScanState, ls: seq<Line>, recover: bool)
    requires CommentsClean(ls) && forall l :: l in ls ==> Filler(l)
    ensures EndState(st, ls, recover) == st
    ensures forall i :: 0 <= i < |ls| ==> Classify(st, ls, recover)[i] == TomlLine(ls[i], false, "", !st.Fresh())
    decreases |ls|
  {
    if ls != [] {
      assert ls[0] in ls;
      FillerKeepsState(st, ls[0], recover);
      FillersKeepState(st, ls[1..], recover);
    }
  }

  // ---- blank lines at the ends of a section ----

  predicate Trimmed(ls: seq<Line>) {
    ls != [] ==> !Blank(ls[0]) && !Blank(ls[|ls| - 1])
  }

  predicate AllBlank(ls: seq<Line>) {
    forall l :: l in ls ==> Blank(l)
  }

  lemma {:induction false} DropHeadParts(ls: seq<Line>) returns (pre: seq<Line>)
    ensures ls == pre + DropBlankHead(ls) && AllBlank(pre)
    ensures DropBlankHead(ls) != [] ==> !Blank(DropBlankHead(ls)[0])
  {
    if ls != [] && Blank(ls[0]) {
      pre := DropHeadParts(ls[1..]);
      pre := [ls[0]] + pre;
    } else {
      pre := [];
    }
  }

  lemma {:induction false} DropTailParts(ls: seq<Line>) returns (post: seq<Line>)
    ensures ls == DropBlankTail(ls) + post && AllBlank(post)
    ensures DropBlankTail(ls) != [] ==> !Blank(DropBlankTail(ls)[|DropBlankTail(ls)| - 1])
  {
    if ls != [] && Blank(ls[|ls| - 1]) {
      post := DropTailParts(ls[..|ls| - 1]);
      post := post + [ls[|ls| - 1]];
    } else {
      post := [];
    }
  }

  lemma TrimParts(ls: seq<Line>) returns (pre: seq<Line>, post: seq<Line>)
    ensures ls == pre + TrimBlank(ls) + post
    ensures AllBlank(pre) && AllBlank(post) && Trimmed(TrimBlank(ls))
  {
    pre := DropHeadParts(ls);
    post := DropTailParts(DropBlankHead(ls));
    assert ls == pre + (TrimBlank(ls) + post);
    if TrimBlank(ls) != [] {
      assert TrimBlank(ls)[0] == DropBlankHead(ls)[0];
    }
  }

  lemma {:induction false} DropHeadOfBlank(pre: seq<Line>, ls: seq<Line>)
    requires AllBlank(pre) && (ls != [] ==> !Blank(ls[0]))
    ensures DropBlankHead(pre + ls) == ls
  {
    if pre == [] {
      assert pre + ls == ls;
    } else {
      assert pre[0] in pre;
      assert (pre + ls)[1..] == pre[1..] + ls;
      DropHeadOfBlank(pre[1..], ls);
    }
  }

  lemma {:induction false} DropTailOfBlank(ls: seq<Line>, post: seq<Line>)
    requires AllBlank(post) && (ls != [] ==> !Blank(ls[|ls| - 1]))
    ensures DropBlankTail(ls + post) == ls
  {
    if post == [] {
      assert ls + post == ls;
    } else {
      assert post[|post| - 1] in post;
      assert (ls + post)[..|ls + post| - 1] == ls + post[..|post| - 1];
      DropTailOfBlank(ls, post[..|post| - 1]);
    }
  }

  /** Blank lines around a trimmed section do not show once it is trimmed again. */
  lemma TrimIgnoresBlanks(pre: seq<Line>, ls: seq<Line>, post: seq<Line>)
    requires AllBlank(pre) && AllBlank(post) && Trimmed(ls)
    ensures TrimBlank(pre + ls + post) == ls
  {
    if ls == [] {
      assert pre + ls + post == (pre + post) + [];
      DropHeadOfBlank(pre + post, []);
    } else {
      assert pre + ls + post == pre + (ls + post);
      DropHeadOfBlank(pre, ls + post);
      DropTailOfBlank(ls, post);
    }
  }

  // ---- what survives of the existing file ----

  /** The root part and the tables of the surviving lines, trimmed. */
  datatype Parts = Parts(root: seq<Line>, tables: seq<Line>)

  function PartsOf(kept: seq<Line>): Parts {
    Parts(TrimBlank(RootPart(kept)), TrimBlank(TablesPart(kept)))
  }

  predicate NoHeader(cs: seq<TomlLine>) {
    forall i :: 0 <= i < |cs| ==> !cs[i].isHeader
  }

  predicate NoManagedHeader(cs: seq<TomlLine>) {
    forall i :: 0 <= i < |cs| && cs[i].isHeader ==> cs[i].header != MANAGED_TABLE
  }

  /** The two parts read apart as they did together; recover says which pass reads them. */
  ghost predicate Sound(k: Parts, recover: bool) {
    && Trimmed(k.root) && Trimmed(k.tables)
    && NoHeader(Classify(FRESH, k.root, recover))
    && NoManagedHeader(Classify(FRESH, k.tables, recover))
    && (k.tables != [] ==> Lead(Classify(FRESH, k.tables, recover)).Some?)
    && (k.tables != [] && k.root != [] ==> !Filler(k.root[|k.root| - 1]))
    && (!recover ==> EndState(FRESH, k.root, false) == FRESH && EndState(FRESH, k.tables, false) == FRESH)
    && (!recover ==> Apart(Classify(FRESH, k.tables, false)))
    && (recover ==> !EndState(EndState(FRESH, k.root, false), k.tables, false).Fresh())
  }

  lemma BlanksKeepState(st: ScanState, ls: seq<Line>, recover: bool)
    requires AllBlank(ls)
    ensures EndState(st, ls, recover) == st
    ensures forall i :: 0 <= i < |ls| ==> Classify(st, ls, recover)[i] == TomlLine(ls[i], false, "", !st.Fresh())
  {
    forall l | l in ls
      ensures Filler(l) && !Comment(l)
    {}
    FillersKeepState(st, ls, recover);
  }

  /** Trimming a section changes neither how it is read nor where it ends. */
  lemma TrimKeepsScan(st: ScanState, ls: seq<Line>, recover: bool) returns (pre: seq<Line>, post: seq<Line>)
    ensures ls == pre + TrimBlank(ls) + post && AllBlank(pre) && AllBlank(post)
    ensures EndState(st, TrimBlank(ls), recover) == EndState(st, ls, recover)
    ensures Classify(st, ls, recover)
            == Classify(st, pre, recover) + Classify(st, TrimBlank(ls), recover)
             + Classify(EndState(st, ls, recover), post, recover)
  {
    pre, post := TrimParts(ls);
    var t := TrimBlank(ls);
    assert ls == pre + (t + post);
    ClassifyConcat(st, pre, t + post, recover);
    BlanksKeepState(st, pre, recover);
    ClassifyConcat(st, t, post, recover);
    BlanksKeepState(EndState(st, t, recover), post, recover);
  }

  lemma {:induction false} LeadSkips(a: seq<TomlLine>, b: seq<TomlLine>)
    requires NoHeader(a) && Lead(a + b).Some?
    ensures Lead(b) == Lead(a + b)
  {
    if a == [] {
      assert a + b == b;
    } else {
      assert (a + b)[1..] == a[1..] + b;
      LeadSkips(a[1..], b);
    }
  }

  lemma {:induction false} LeadIsAHeader(cs: seq<TomlLine>)
    requires NoManagedHeader(cs) && Lead(cs).Some?
    ensures Lead(cs) != Some(MANAGED_TABLE)
  {
    if !cs[0].isHeader {
      LeadIsAHeader(cs[1..]);
    }
  }

  lemma {:induction false} RecoveryHeaders(st: ScanState, ls: seq<Line>)
    ensures forall i :: 0 <= i < |ls| ==> (Classify(st, ls, true)[i].isHeader <==> Shape(ls[i]).Some?)
    ensures forall i :: 0 <= i < |ls| && Classify(st, ls, true)[i].isHeader ==>
      Shape(ls[i]) == Some(Classify(st, ls, true)[i].header)
    decreases |ls|
  {
    if ls != [] {
      RecoveryHeaders(NextState(st, ls[0], true), ls[1..]);
    }
  }

  /** The scan of the surviving lines, cut where the tables begin. */
  lemma CutScan(kept: seq<Line>)
    ensures var r := !Closes(kept);
      && kept == RootPart(kept) + TablesPart(kept)
      && Scan(kept)[..SplitIndex(Scan(kept))] == Classify(FRESH, RootPart(kept), r)
      && Scan(kept)[SplitIndex(Scan(kept))..] == Classify(EndState(FRESH, RootPart(kept), r), TablesPart(kept), r)
  {
    ClassifyConcat(FRESH, RootPart(kept), TablesPart(kept), !Closes(kept));
    assert kept == RootPart(kept) + TablesPart(kept);
  }

  lemma RootHasNoHeader(kept: seq<Line>)
    ensures NoHeader(Classify(FRESH, RootPart(kept), !Closes(kept)))
  {
    CutScan(kept);
    var cs := Scan(kept);
    forall i | 0 <= i < SplitIndex(cs)
      ensures !cs[i].isHeader
    {
      assert Lead(cs[i..]).None?;
      assert cs[i..][0] == cs[i];
    }
  }

  /** The tables are entered outside every value, or the pass does not care. */
  lemma TablesEntry(kept: seq<Line>)
    requires (Closes(kept) ==> Apart(Scan(kept))) && TablesPart(kept) != []
    ensures var b := TablesPart(kept);
      && Lead(Classify(FRESH, b, !Closes(kept))).Some?
      && Lead(Classify(FRESH, b, !Closes(kept))) == Lead(Scan(kept)[SplitIndex(Scan(kept))..])
      && (NoManagedHeader(Scan(kept)) ==> NoManagedHeader(Classify(FRESH, b, !Closes(kept))))
    ensures Closes(kept) ==> EndState(FRESH, RootPart(kept), false) == FRESH
  {
    CutScan(kept);
    var st, b := EndState(FRESH, RootPart(kept), !Closes(kept)), TablesPart(kept);
    ApartTail(Scan(kept), SplitIndex(Scan(kept)));
    EntryIsFresh(st, b, !Closes(kept));
  }

  lemma {:induction false} ApartTail(cs: seq<TomlLine>, p: nat)
    requires p <= |cs|
    ensures Apart(cs) ==> Apart(cs[p..])
  {
    if p == 0 {
      assert cs[0..] == cs;
    } else {
      ApartTail(cs[1..], p - 1);
      assert cs[1..][p - 1..] == cs[p..];
    }
  }

  lemma EntryIsFresh(st: ScanState, b: seq<Line>, recover: bool)
    requires (!recover ==> Apart(Classify(st, b, false))) && Lead(Classify(st, b, recover)).Some?
    ensures Lead(Classify(FRESH, b, recover)) == Lead(Classify(st, b, recover))
    ensures NoManagedHeader(Classify(st, b, recover)) ==> NoManagedHeader(Classify(FRESH, b, recover))
    ensures !recover ==> st == FRESH
  {
    if recover {
      LeadIgnoresState(st, FRESH, b);
      RecoveryHeaders(st, b);
      RecoveryHeaders(FRESH, b);
    } else {
      FreshLead(st, b);
    }
  }

  /** The line above the tables is not one that the first header would absorb. */
  lemma LeadsPast(cs: seq<TomlLine>)
    requires |cs| > 1 && Lead(cs).None? && Lead(cs[1..]).Some? && Lead(cs[1..]) != Some(MANAGED_TABLE)
    ensures !Filler(cs[0].text)
  {}

  lemma RootEndsBeforeRun(kept: seq<Line>)
    requires NoManagedHeader(Scan(kept))
    requires TablesPart(kept) != [] && RootPart(kept) != []
    ensures !Filler(RootPart(kept)[|RootPart(kept)| - 1])
  {
    CutScan(kept);
    var cs := Scan(kept);
    var p := SplitIndex(cs);
    assert cs[p - 1..][1..] == cs[p..];
    assert Lead(cs[p - 1..]).None?;
    LeadIsAHeader(cs[p..]);
    LeadsPast(cs[p - 1..]);
  }

  lemma MiddleOf(a: seq<TomlLine>, m: seq<TomlLine>, b: seq<TomlLine>)
    ensures NoHeader(a + m + b) ==> NoHeader(m)
    ensures NoManagedHeader(a + m + b) ==> NoManagedHeader(m)
  {
    var cs := a + m + b;
    assert forall i :: 0 <= i < |m| ==> m[i] == cs[|a| + i];
  }

  lemma MiddleLeads(a: seq<TomlLine>, m: seq<TomlLine>, b: seq<TomlLine>)
    requires NoHeader(a) && NoHeader(b) && Lead(a + m + b).Some?
    ensures Lead(m) == Lead(a + m + b)
  {
    assert a + m + b == a + (m + b);
    LeadSkips(a, m + b);
    NoHeaderNoLead(b);
    assert m == [] ==> m + b == b;
    LeadConcat(m, b);
  }

  /** Trimming keeps what a section has of headers and of its leading run. */
  lemma TrimmedSection(ls: seq<Line>, recover: bool)
    ensures var cs, t := Classify(FRESH, ls, recover), Classify(FRESH, TrimBlank(ls), recover);
      && (NoHeader(cs) ==> NoHeader(t))
      && (NoManagedHeader(cs) ==> NoManagedHeader(t))
      && (Lead(cs).Some? ==> Lead(t) == Lead(cs))
  {
    var pre, post := TrimKeepsScan(FRESH, ls, recover);
    var end := EndState(FRESH, ls, recover);
    BlanksKeepState(FRESH, pre, recover);
    BlanksKeepState(end, post, recover);
    var a, t, b := Classify(FRESH, pre, recover), Classify(FRESH, TrimBlank(ls), recover), Classify(end, post, recover);
    assert NoHeader(a) && NoHeader(b);
    MiddleOf(a, t, b);
    if Lead(a + t + b).Some? {
      MiddleLeads(a, t, b);
    }
  }

  lemma TrimmedText(ls: seq<Line>)
    ensures Trimmed(TrimBlank(ls))
    ensures CommentsClean(ls) ==> CommentsClean(TrimBlank(ls))
    ensures TrimBlank(ls) != [] && !Blank(ls[|ls| - 1]) ==> TrimBlank(ls)[|TrimBlank(ls)| - 1] == ls[|ls| - 1]
  {
    var pre, post := TrimParts(ls);
    assert forall l :: l in TrimBlank(ls) ==> l in ls;
    assert post != [] ==> post[|post| - 1] in post && ls[|ls| - 1] == post[|post| - 1];
  }

  lemma PartsAreSound(kept: seq<Line>)
    requires (Closes(kept) ==> Apart(Scan(kept))) && NoManagedHeader(Scan(kept))
    ensures Sound(PartsOf(kept), !Closes(kept))
  {
    SoundRoot(kept);
    SoundTables(kept);
    SoundEnds(kept);
    if Closes(kept) {
      SoundApart(kept);
    }
    if PartsOf(kept).tables != [] && PartsOf(kept).root != [] {
      SoundRootEnd(kept);
    }
  }

  lemma PartsComeFrom(kept: seq<Line>)
    ensures PartsOf(kept).tables != [] ==> TablesPart(kept) != []
    ensures PartsOf(kept).root != [] ==> RootPart(kept) != []
  {}

  lemma SoundRoot(kept: seq<Line>)
    ensures var k := PartsOf(kept);
      && Trimmed(k.root)
      && NoHeader(Classify(FRESH, k.root, !Closes(kept)))
  {
    PartsComeFrom(kept);
    RootHasNoHeader(kept);
    TrimmedSection(RootPart(kept), !Closes(kept));
    TrimmedText(RootPart(kept));
  }

  lemma SoundRootEnd(kept: seq<Line>)
    requires NoManagedHeader(Scan(kept))
    requires PartsOf(kept).tables != [] && PartsOf(kept).root != []
    ensures !Filler(PartsOf(kept).root[|PartsOf(kept).root| - 1])
  {
    PartsComeFrom(kept);
    RootEndsBeforeRun(kept);
    var a := RootPart(kept);
    TrimmedText(a);
  }

  lemma SoundTables(kept: seq<Line>)
    requires (Closes(kept) ==> Apart(Scan(kept))) && NoManagedHeader(Scan(kept))
    ensures var k := PartsOf(kept);
      && Trimmed(k.tables)
      && NoManagedHeader(Classify(FRESH, k.tables, !Closes(kept)))
      && (k.tables != [] ==> Lead(Classify(FRESH, k.tables, !Closes(kept))).Some?)
  {
    PartsComeFrom(kept);
    TrimmedText(TablesPart(kept));
    TrimmedSection(TablesPart(kept), !Closes(kept));
    if TablesPart(kept) != [] {
      TablesEntry(kept);
    }
  }

  lemma TrimKeepsEnd(st: ScanState, ls: seq<Line>)
    ensures EndState(st, TrimBlank(ls), false) == EndState(st, ls, false)
  {
    var _, _ := TrimKeepsScan(st, ls, false);
  }

  lemma EndsOfParts(kept: seq<Line>)
    ensures var k, st := PartsOf(kept), EndState(FRESH, RootPart(kept), false);
      && EndState(FRESH, k.root, false) == st
      && EndState(st, k.tables, false) == EndState(FRESH, kept, false)
  {
    var a, b := RootPart(kept), TablesPart(kept);
    assert kept == a + b;
    EndStateConcat(FRESH, a, b, false);
    TrimKeepsEnd(FRESH, a);
    TrimKeepsEnd(EndState(FRESH, a, false), b);
  }

  lemma SoundEnds(kept: seq<Line>)
    requires Closes(kept) ==> Apart(Scan(kept))
    ensures var k := PartsOf(kept);
      && (Closes(kept) ==> EndState(FRESH, k.root, false) == FRESH && EndState(FRESH, k.tables, false) == FRESH)
      && (!Closes(kept) ==> !EndState(EndState(FRESH, k.root, false), k.tables, false).Fresh())
  {
    EndsOfParts(kept);
    if Closes(kept) {
      if TablesPart(kept) != [] {
        TablesEntry(kept);
      } else {
        assert PartsOf(kept).tables == [];
      }
    }
  }

  lemma {:induction false} LeadPrefix(a: seq<TomlLine>, b: seq<TomlLine>)
    requires Lead(a).Some?
    ensures Lead(a + b) == Lead(a)
  {
    assert (a + b)[0] == a[0] && (a + b)[1..] == a[1..] + b;
    if !a[0].isHeader {
      LeadPrefix(a[1..], b);
    }
  }

  lemma {:induction false} ApartPrefix(a: seq<TomlLine>, b: seq<TomlLine>)
    requires Apart(a + b)
    ensures Apart(a)
  {
    if a != [] {
      assert (a + b)[0] == a[0] && (a + b)[1..] == a[1..] + b;
      ApartPrefix(a[1..], b);
      if Lead(a).Some? {
        LeadPrefix(a, b);
      }
    }
  }

  lemma ApartMiddle(a: seq<TomlLine>, m: seq<TomlLine>, b: seq<TomlLine>)
    requires Apart(a + m + b)
    ensures Apart(m)
  {
    assert (a + m + b)[|a|..] == m + b;
    ApartTail(a + m + b, |a|);
    ApartPrefix(m, b);
  }

  lemma SoundApart(kept: seq<Line>)
    requires Closes(kept) && Apart(Scan(kept))
    ensures Apart(Classify(FRESH, PartsOf(kept).tables, false))
  {
    var b := TablesPart(kept);
    if b == [] {
      assert PartsOf(kept).tables == [];
    } else {
      CutScan(kept);
      TablesEntry(kept);
      ApartTail(Scan(kept), SplitIndex(Scan(kept)));
      var pre, post := TrimKeepsScan(FRESH, b, false);
      ApartMiddle(Classify(FRESH, pre, false), Classify(FRESH, TrimBlank(b), false),
        Classify(EndState(FRESH, b, false), post, false));
    }
  }
}
