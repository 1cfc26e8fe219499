/** Files for which the merge does not do what it is for, and why each condition
    of the main results is there. */
module TomlLimits {
  import opened Text
  import opened GoQuote
  import opened TomlScan
  import opened TomlSections
  import opened TomlStrip
  import opened TomlStability
  import opened TomlAssembly
  import opened TomlRedelivery
  import opened TomlConvergence
  import opened TomlModel
  import opened TomlMerge
  import opened TomlReturns
  import opened TomlStrings
  import opened TomlFile
  import GatewayConfig

  const IN_SINGLE: ScanState := ScanState(false, true, 0)
  const IN_ARRAY: ScanState := ScanState(false, false, 1)

  // ---- a string closed by a line that looks like a comment ----

  /** a opens a multi-line string, b looks like a comment and closes it, c is a header. */
  ghost predicate ClosedByComment(a: Line, b: Line, c: Line) {
    && Shape(a).None? && !Filler(a) && !ManagedKey(a) && Advance(FRESH, a, 0) == IN_SINGLE
    && Comment(b) && Shape(b).None? && Advance(IN_SINGLE, b, 0) == FRESH
    && Shape(c).Some? && Shape(c) != Some(MANAGED_TABLE)
  }

  lemma ClosedByCommentScan(a: Line, b: Line, c: Line)
    requires ClosedByComment(a, b, c)
    ensures Closes([a, b, c])
    ensures Scan([a, b, c])
      == [TomlLine(a, false, "", false), TomlLine(b, false, "", true), TomlLine(c, true, Shape(c).value, false)]
  {
    var ls := [a, b, c];
    assert ls[1..] == [b, c] && [b, c][1..] == [c] && [c][1..] == [];
    assert NextState(FRESH, a, false) == IN_SINGLE;
    assert NextState(IN_SINGLE, b, false) == FRESH;
    assert NextState(FRESH, c, false) == FRESH;
    assert EndState(IN_SINGLE, [b, c], false) == EndState(FRESH, [c], false) == FRESH;
    assert EndState(FRESH, ls, false) == FRESH;
    assert Classify(FRESH, [c], false) == [ClassifyLine(FRESH, c, false)];
    assert Classify(IN_SINGLE, [b, c], false) == [ClassifyLine(IN_SINGLE, b, false)] + Classify(FRESH, [c], false);
    assert Classify(FRESH, ls, false) == [ClassifyLine(FRESH, a, false)] + Classify(IN_SINGLE, [b, c], false);
  }

  lemma ThreeLead(x: TomlLine, y: TomlLine, z: TomlLine)
    requires !x.isHeader && !Filler(x.text) && !y.isHeader && Comment(y.text) && z.isHeader
    ensures Lead([z]) == Some(z.header) && Lead([y, z]) == Some(z.header) && Lead([x, y, z]).None?
    ensures SplitIndex([x, y, z]) == 1
  {
    assert [y, z][1..] == [z] && [x, y, z][1..] == [y, z];
    assert [x, y, z][0..] == [x, y, z];
    SplitIndexIs([x, y, z], 1);
  }

  lemma ThreeKept(x: TomlLine, y: TomlLine, z: TomlLine)
    requires !x.isHeader && !x.continuation && !Filler(x.text) && !ManagedKey(x.text)
    requires !y.isHeader && y.continuation && Comment(y.text)
    requires z.isHeader && !z.continuation && z.header != MANAGED_TABLE
    ensures Strip(AT_ROOT, [x, y, z]) == [x, y, z]
  {
    ThreeLead(x, y, z);
    assert [y, z][1..] == [z] && [x, y, z][1..] == [y, z] && [z][1..] == [];
    assert Strip(AT_ROOT, [z]) == [z];
    assert Strip(AT_ROOT, [y, z]) == [y] + [z];
    assert StripStep(AT_ROOT, [x, y, z]) == (true, AT_ROOT);
  }

  /** The strip keeps the three lines, and the cut falls inside the string. */
  lemma CutInString(a: Line, b: Line, c: Line)
    requires ClosedByComment(a, b, c)
    ensures Kept([a, b, c]) == [a, b, c] && RootPart([a, b, c]) == [a]
    ensures EndState(FRESH, [a], false) == IN_SINGLE
  {
    ClosedByCommentScan(a, b, c);
    var x, y, z := TomlLine(a, false, "", false), TomlLine(b, false, "", true),
      TomlLine(c, true, Shape(c).value, false);
    ThreeKept(x, y, z);
    assert Texts([x, y, z]) == [a, b, c];
    ThreeLead(x, y, z);
    CutAt([a, b, c], [a], [b, c]);
    assert [a][1..] == [];
  }

  lemma NoHeaderOfThree(a: Line, b: Line, c: Line)
    requires ClosedByComment(a, b, c)
    ensures Closes([a, b, c]) && ManagedHeaders(Scan([a, b, c])) == 0
  {
    ClosedByCommentScan(a, b, c);
    NoManagedHeaders(Scan([a, b, c]));
  }

  /** The file closes, yet the merge writes the gateway table inside the string:
      the result has no managed header at all. */
  lemma TableLostInString(a: Line, b: Line, c: Line, f: Fragment, allowed: seq<string>)
    requires ClosedByComment(a, b, c) && f.ValidFor(true)
    ensures Closes([a, b, c])
    ensures ManagedHeaders(Scan(Merge([a, b, c], f, allowed))) == 0
  {
    NoHeaderOfThree(a, b, c);
    CutInString(a, b, c);
    MergedHeaderCount([a, b, c], f, allowed);
  }

  // ---- such a file exists ----

  lemma StartsAsComment(l: Line)
    requires l != [] && l[0] == '#'
    ensures Shape(l).None? && Comment(l)
  {
    NotAHeader(l, 0);
    TrimUpTo(l, 0, 0);
    assert TrimSpace(l)[0] == l[0..][0];
  }

  lemma OpensString(l: Line, i: nat)
    requires i + 3 == |l| && TripleAt(l, i, '\'') && forall j :: 0 <= j < i ==> Inert(l[j])
    ensures Advance(FRESH, l, 0) == IN_SINGLE
  {
    SkipInert(FRESH, l, 0, i);
    assert Advance(FRESH, l, i) == Advance(IN_SINGLE, l, i + 3);
  }

  lemma {:induction false} ClosesString(l: Line, i: nat, k: nat)
    requires i <= k && k + 3 == |l| && TripleAt(l, k, '\'') && forall j :: 0 <= j < k ==> l[j] != '\''
    ensures Advance(IN_SINGLE, l, i) == FRESH
    decreases k - i
  {
    if i < k {
      ClosesString(l, i + 1, k);
    } else {
      assert Advance(IN_SINGLE, l, k) == Advance(FRESH, l, k + 3);
    }
  }

  lemma NotesIsNotManaged()
    ensures !ManagedKey("notes" + " =" + " '''")
  {
    KeyBefore("notes", " '''");
    assert "notes"[0] == 'n' && "model"[0] == 'm';
    assert |"notes"| == 5 && |"model_provider"| == 14 && |"model_catalog_json"| == 18;
    assert |"web_search"| == 10 && |"stream_idle_timeout_ms"| == 22;
  }

  lemma OpenerExists() returns (a: Line)
    ensures Shape(a).None? && !Filler(a) && !ManagedKey(a) && Advance(FRESH, a, 0) == IN_SINGLE
  {
    a := "notes" + " =" + " '''";
    NotesIsNotManaged();
    StartsPlainly("notes" + " =" + " '''");
    OpensString("notes" + " =" + " '''", 8);
  }

  lemma CloserExists() returns (b: Line)
    ensures Comment(b) && Shape(b).None? && Advance(IN_SINGLE, b, 0) == FRESH
  {
    b := "# '''";
    StartsAsComment("# '''");
    ClosesString("# '''", 0, 2);
  }

  lemma HeaderExists() returns (c: Line)
    ensures Shape(c).Some? && Shape(c) != Some(MANAGED_TABLE)
    ensures forall st :: Advance(st, c, 0) == st
  {
    c := "[" + "foo" + "]";
    GatewayConfig.BracketHeader("foo");
    assert |"foo"| == 3 && |MANAGED_TABLE| == 23;
  }

  lemma ClosedByCommentExists()
    ensures exists a, b, c :: ClosedByComment(a, b, c)
  {
    var a := OpenerExists();
    var b := CloserExists();
    var c := HeaderExists();
    assert ClosedByComment(a, b, c);
  }

  // ---- a file that takes two deliveries ----

  /** An array closed below a line that looks like a header, a root assignment
      after it, and a managed table that never closes. */
  ghost predicate HeaderInArray(u: Line, v: Line, w: Line, x: Line, y: Line, z: Line) {
    && Shape(u).None? && !Filler(u) && !ManagedKey(u) && Advance(FRESH, u, 0) == IN_ARRAY
    && Shape(v).Some? && Shape(v) != Some(MANAGED_TABLE) && Advance(IN_ARRAY, v, 0) == IN_ARRAY
    && Shape(w).None? && !Filler(w) && Advance(IN_ARRAY, w, 0) == FRESH && Advance(FRESH, w, 0) == FRESH
    && RootLine(x)
    && Shape(y) == Some(MANAGED_TABLE)
    && Shape(z).None? && !Filler(z) && Advance(FRESH, z, 0) == IN_ARRAY
  }

  lemma PlainPass(u: Line, v: Line, w: Line, x: Line, y: Line, z: Line)
    requires HeaderInArray(u, v, w, x, y, z)
    ensures EndState(FRESH, [u] + ([v] + ([w] + ([x] + []))), false) == FRESH
    ensures Classify(FRESH, [u] + ([v] + ([w] + ([x] + []))), false)
      == [TomlLine(u, false, "", false)] + ([TomlLine(v, false, "", true)] + ([TomlLine(w, false, "", true)]
         + ([TomlLine(x, false, "", false)] + [])))
    ensures EndState(FRESH, [y] + ([z] + []), false) == IN_ARRAY
  {
    OneStep(FRESH, u, [v] + ([w] + ([x] + [])), false);
    OneStep(IN_ARRAY, v, [w] + ([x] + []), false);
    OneStep(IN_ARRAY, w, [x] + [], false);
    OneStep(FRESH, x, [], false);
    OneStep(FRESH, y, [z] + [], false);
    OneStep(FRESH, z, [], false);
  }

  lemma RecoveringPass(u: Line, v: Line, w: Line, x: Line, y: Line, z: Line)
    requires HeaderInArray(u, v, w, x, y, z)
    ensures Classify(FRESH, [u] + ([v] + ([w] + ([x] + ([y] + ([z] + []))))), true)
      == [TomlLine(u, false, "", false)]
        + ([TomlLine(v, true, Shape(v).value, false)] + ([TomlLine(w, false, "", false)]
         + ([TomlLine(x, false, "", false)]
           + ([TomlLine(y, true, MANAGED_TABLE, false)] + ([TomlLine(z, false, "", false)] + [])))))
  {
    OneStep(FRESH, u, [v] + ([w] + ([x] + ([y] + ([z] + [])))), true);
    OneStep(IN_ARRAY, v, [w] + ([x] + ([y] + ([z] + []))), true);
    OneStep(FRESH, w, [x] + ([y] + ([z] + [])), true);
    OneStep(FRESH, x, [y] + ([z] + []), true);
    OneStep(FRESH, y, [z] + [], true);
    OneStep(FRESH, z, [], true);
  }

  lemma HeaderFirst(s: StripState, c: TomlLine, rest: seq<TomlLine>)
    requires !c.continuation && c.isHeader
    ensures Strip(s, [c] + rest)
      == (if c.header == MANAGED_TABLE then [] else [c]) + Strip(StripState(Some(c.header), false), rest)
  {
    assert ([c] + rest)[1..] == rest;
  }

  lemma DropBody(c: TomlLine)
    requires !c.isHeader
    ensures Strip(StripState(Some(MANAGED_TABLE), false), [c] + []) == []
  {
    assert [c] + [] == [c];
    ManagedBodyStrip(StripState(Some(MANAGED_TABLE), false), [c]);
  }

  /** In the recovering pass the assignment belongs to the table in the array, so
      it is kept; once the managed table is gone the file closes, and the same
      line is a managed key at the root. */
  lemma ManagedKeySurvives(u: Line, v: Line, w: Line, x: Line, y: Line, z: Line)
    requires HeaderInArray(u, v, w, x, y, z)
    ensures var existing := [u] + ([v] + ([w] + ([x] + ([y] + ([z] + [])))));
      Whole(existing) && !Settled(existing) && Closes(Kept(existing))
  {
    var kept := [u] + ([v] + ([w] + ([x] + [])));
    PlainPass(u, v, w, x, y, z);
    DoesNotClose(u, v, w, x, y, z);
    KeptOfThese(u, v, w, x, y, z);
    KeptRoot(u, v, w, x, y, z);
    LastIsManaged(Classify(FRESH, kept, false), x);
    FourPlain(TomlLine(u, false, "", false), TomlLine(v, false, "", true), TomlLine(w, false, "", true),
      TomlLine(x, false, "", false));
    NoHeaderApart(Classify(FRESH, kept, false));
  }

  /** Such a file is whole, and a second delivery of any fragment writes another file
      than the first. */
  lemma NotSettled(u: Line, v: Line, w: Line, x: Line, y: Line, z: Line, f: Fragment, allowed: seq<string>)
    requires HeaderInArray(u, v, w, x, y, z) && f.Valid() && Canonical(f)
    ensures var existing := [u] + ([v] + ([w] + ([x] + ([y] + ([z] + [])))));
      && Whole(existing) && !Settled(existing)
      && Merge(Merge(existing, f, allowed), f, allowed) != Merge(existing, f, allowed)
  {
    ManagedKeySurvives(u, v, w, x, y, z);
    Redelivery([u] + ([v] + ([w] + ([x] + ([y] + ([z] + []))))), f, allowed);
  }

  lemma LastIsManaged(cs: seq<TomlLine>, x: Line)
    requires |cs| == 4 && cs[3] == TomlLine(x, false, "", false) && ManagedKey(x)
    ensures !RootClean(cs)
  {
    assert !cs[3].continuation;
  }

  lemma FourAndTail<T>(u: T, v: T, w: T, x: T, tail: seq<T>)
    ensures [u] + ([v] + ([w] + ([x] + []))) + tail == [u] + ([v] + ([w] + ([x] + tail)))
  {}

  lemma AppendToFour(u: Line, v: Line, w: Line, x: Line, tail: seq<Line>)
    ensures EndState(FRESH, [u] + ([v] + ([w] + ([x] + tail))), false)
      == EndState(EndState(FRESH, [u] + ([v] + ([w] + ([x] + []))), false), tail, false)
  {
    var kept := [u] + ([v] + ([w] + ([x] + [])));
    ClassifyConcat(FRESH, kept, tail, false);
    FourAndTail(u, v, w, x, tail);
  }

  lemma DoesNotClose(u: Line, v: Line, w: Line, x: Line, y: Line, z: Line)
    requires HeaderInArray(u, v, w, x, y, z)
    ensures !Closes([u] + ([v] + ([w] + ([x] + ([y] + ([z] + []))))))
  {
    PlainPass(u, v, w, x, y, z);
    AppendToFour(u, v, w, x, [y] + ([z] + []));
  }

  lemma StripThese(a: TomlLine, b: TomlLine, c: TomlLine, d: TomlLine, e: TomlLine, g: TomlLine)
    requires !a.continuation && !a.isHeader && !Filler(a.text) && !ManagedKey(a.text)
    requires !b.continuation && b.isHeader && b.header != MANAGED_TABLE
    requires !c.continuation && !c.isHeader && !Filler(c.text)
    requires !d.continuation && !d.isHeader && !Filler(d.text)
    requires !e.continuation && e.isHeader && e.header == MANAGED_TABLE
    requires !g.isHeader
    ensures Strip(AT_ROOT, [a] + ([b] + ([c] + ([d] + ([e] + ([g] + [])))))) == [a] + ([b] + ([c] + ([d] + [])))
  {
    var t := StripState(Some(b.header), false);
    var r5 := [g] + [];
    var r4 := [e] + r5;
    var r3 := [d] + r4;
    var r2 := [c] + r3;
    var r1 := [b] + r2;
    HeaderFirst(AT_ROOT, b, r2);
    HeaderFirst(t, e, r5);
    DropBody(g);
  }

  lemma TextsOfFour(a: TomlLine, b: TomlLine, c: TomlLine, d: TomlLine)
    ensures Texts([a] + ([b] + ([c] + ([d] + [])))) == [a.text] + ([b.text] + ([c.text] + ([d.text] + [])))
  {}

  lemma KeptOfThese(u: Line, v: Line, w: Line, x: Line, y: Line, z: Line)
    requires HeaderInArray(u, v, w, x, y, z)
    requires !Closes([u] + ([v] + ([w] + ([x] + ([y] + ([z] + []))))))
    ensures Kept([u] + ([v] + ([w] + ([x] + ([y] + ([z] + [])))))) == [u] + ([v] + ([w] + ([x] + [])))
  {
    RecoveringPass(u, v, w, x, y, z);
    var a, b, c := TomlLine(u, false, "", false), TomlLine(v, true, Shape(v).value, false),
      TomlLine(w, false, "", false);
    var d, e, g := TomlLine(x, false, "", false), TomlLine(y, true, MANAGED_TABLE, false),
      TomlLine(z, false, "", false);
    ManagedKeyIsNotFiller(x);
    StripThese(a, b, c, d, e, g);
    TextsOfFour(a, b, c, d);
  }

  /** A trimmed file without headers is all root. */
  lemma AllRoot(ls: seq<Line>)
    requires NoHeader(Scan(ls)) && Trimmed(ls)
    ensures PartsOf(ls).root == ls
  {
    var cs := Scan(ls);
    assert cs + [] == cs;
    NoLeadInside(cs, []);
    SplitIndexIs(cs, |cs|);
    CutAt(ls, ls, []);
    TrimIgnoresBlanks([], ls, []);
    assert [] + ls + [] == ls;
  }

  lemma FourPlain(a: TomlLine, b: TomlLine, c: TomlLine, d: TomlLine)
    requires !a.isHeader && !b.isHeader && !c.isHeader && !d.isHeader
    ensures NoHeader([a] + ([b] + ([c] + ([d] + []))))
  {}

  lemma KeptRoot(u: Line, v: Line, w: Line, x: Line, y: Line, z: Line)
    requires HeaderInArray(u, v, w, x, y, z)
    ensures PartsOf([u] + ([v] + ([w] + ([x] + [])))).root == [u] + ([v] + ([w] + ([x] + [])))
  {
    PlainPass(u, v, w, x, y, z);
    ManagedKeyIsNotFiller(x);
    FourPlain(TomlLine(u, false, "", false), TomlLine(v, false, "", true), TomlLine(w, false, "", true),
      TomlLine(x, false, "", false));
    AllRoot([u] + ([v] + ([w] + ([x] + []))));
  }

  lemma OpensArray(l: Line, i: nat)
    requires i + 1 == |l| && l[i] == '[' && forall j :: 0 <= j < i ==> Inert(l[j])
    ensures Advance(FRESH, l, 0) == IN_ARRAY
  {
    SkipInert(FRESH, l, 0, i);
    assert Advance(FRESH, l, i) == Advance(IN_ARRAY, l, i + 1);
  }

  lemma ArrayOpenerExists() returns (l: Line)
    ensures Shape(l).None? && !Filler(l) && !ManagedKey(l) && Advance(FRESH, l, 0) == IN_ARRAY
  {
    l := "a" + " =" + " [";
    StartsPlainly(l);
    OpensArray(l, 4);
    KeyBefore("a", " [");
    assert |"a"| == 1 && |"model"| == 5 && |"model_provider"| == 14 && |"model_catalog_json"| == 18;
    assert |"web_search"| == 10 && |"stream_idle_timeout_ms"| == 22;
  }

  lemma ArrayCloserExists() returns (l: Line)
    ensures Shape(l).None? && !Filler(l) && Advance(IN_ARRAY, l, 0) == FRESH && Advance(FRESH, l, 0) == FRESH
  {
    l := "]";
    StartsPlainly("]");
    assert Advance(IN_ARRAY, "]", 0) == Advance(FRESH, "]", 1);
    assert Advance(FRESH, "]", 0) == Advance(FRESH, "]", 1);
  }

  /** Such files exist, so one delivery is not always enough. */
  lemma HeaderInArrayExists()
    ensures exists u, v, w, x, y, z :: HeaderInArray(u, v, w, x, y, z)
  {
    var u := ArrayOpenerExists();
    var v := HeaderExists();
    var w := ArrayCloserExists();
    GatewayConfig.ModelIsRootLine([]);
    GatewayConfig.HeaderRendered();
    assert HeaderInArray(u, v, w, GatewayConfig.ModelLine([]), "[" + MANAGED_TABLE + "]", u);
  }

  // ---- a table lost by the second delivery ----

  /** A string over a line that looks like a header, closed by one that looks like a
      comment; a root assignment; a header; and a managed table that never closes. */
  ghost predicate KeyBelowString(a: Line, v: Line, b: Line, x: Line, h: Line, y: Line, z: Line) {
    && Shape(a).None? && !Filler(a) && !ManagedKey(a) && Advance(FRESH, a, 0) == IN_SINGLE
    && Shape(v).Some? && Shape(v) != Some(MANAGED_TABLE) && Advance(IN_SINGLE, v, 0) == IN_SINGLE
    && Comment(b) && Shape(b).None? && Advance(IN_SINGLE, b, 0) == FRESH
    && RootLine(x)
    && Shape(h).Some? && Shape(h) != Some(MANAGED_TABLE)
    && Shape(y) == Some(MANAGED_TABLE)
    && Shape(z).None? && !Filler(z) && Advance(FRESH, z, 0) == IN_ARRAY
  }

  lemma RootInPlainPass(a: Line, v: Line, b: Line, x: Line, h: Line, y: Line, z: Line)
    requires KeyBelowString(a, v, b, x, h, y, z)
    ensures EndState(FRESH, [a] + ([v] + ([b] + ([x] + []))), false) == FRESH
    ensures Classify(FRESH, [a] + ([v] + ([b] + ([x] + []))), false)
      == [TomlLine(a, false, "", false)] + ([TomlLine(v, false, "", true)] + ([TomlLine(b, false, "", true)]
         + ([TomlLine(x, false, "", false)] + [])))
    ensures EndState(FRESH, [h] + [], false) == FRESH
    ensures Classify(FRESH, [h] + [], false) == [TomlLine(h, true, Shape(h).value, false)] + []
    ensures EndState(FRESH, [h] + ([y] + ([z] + [])), false) == IN_ARRAY
  {
    OneStep(FRESH, a, [v] + ([b] + ([x] + [])), false);
    OneStep(IN_SINGLE, v, [b] + ([x] + []), false);
    OneStep(IN_SINGLE, b, [x] + [], false);
    OneStep(FRESH, x, [], false);
    OneStep(FRESH, h, [], false);
    OneStep(FRESH, h, [y] + ([z] + []), false);
    OneStep(FRESH, y, [z] + [], false);
    OneStep(FRESH, z, [], false);
  }

  lemma SevenInRecovery(a: Line, v: Line, b: Line, x: Line, h: Line, y: Line, z: Line)
    requires KeyBelowString(a, v, b, x, h, y, z)
    ensures Classify(FRESH, [a] + ([v] + ([b] + ([x] + ([h] + ([y] + ([z] + [])))))), true)
      == [TomlLine(a, false, "", false)]
        + ([TomlLine(v, true, Shape(v).value, false)] + ([TomlLine(b, false, "", false)]
         + ([TomlLine(x, false, "", false)] + ([TomlLine(h, true, Shape(h).value, false)]
            + ([TomlLine(y, true, MANAGED_TABLE, false)] + ([TomlLine(z, false, "", false)] + []))))))
  {
    CommentInFresh(b);
    OneStep(FRESH, a, [v] + ([b] + ([x] + ([h] + ([y] + ([z] + []))))), true);
    OneStep(IN_SINGLE, v, [b] + ([x] + ([h] + ([y] + ([z] + [])))), true);
    OneStep(FRESH, b, [x] + ([h] + ([y] + ([z] + []))), true);
    OneStep(FRESH, x, [h] + ([y] + ([z] + [])), true);
    OneStep(FRESH, h, [y] + ([z] + []), true);
    OneStep(FRESH, y, [z] + [], true);
    OneStep(FRESH, z, [], true);
  }

  lemma PlainLineKept(s: StripState, c: TomlLine, rest: seq<TomlLine>)
    requires !c.continuation && !c.isHeader && Lead([c] + rest).None? && s.table != Some(MANAGED_TABLE) && !s.drop
    requires s.table.None? ==> !ManagedKey(c.text)
    ensures Strip(s, [c] + rest) == [c] + Strip(s, rest)
  {
    assert ([c] + rest)[1..] == rest;
  }

  lemma LeadsNowhere(c: TomlLine, rest: seq<TomlLine>)
    requires !c.isHeader && (!Filler(c.text) || Lead(rest).None?)
    ensures Lead([c] + rest).None?
  {
    assert ([c] + rest)[1..] == rest;
  }

  lemma StripSeven(a: TomlLine, v: TomlLine, b: TomlLine, x: TomlLine, h: TomlLine, y: TomlLine, z: TomlLine)
    requires !a.continuation && !a.isHeader && !Filler(a.text) && !ManagedKey(a.text)
    requires !v.continuation && v.isHeader && v.header != MANAGED_TABLE
    requires !b.continuation && !b.isHeader
    requires !x.continuation && !x.isHeader && !Filler(x.text)
    requires !h.continuation && h.isHeader && h.header != MANAGED_TABLE
    requires !y.continuation && y.isHeader && y.header == MANAGED_TABLE
    requires !z.isHeader
    ensures Strip(AT_ROOT, [a] + ([v] + ([b] + ([x] + ([h] + ([y] + ([z] + [])))))))
      == [a] + ([v] + ([b] + ([x] + ([h] + []))))
  {
    var t := StripState(Some(v.header), false);
    var r6 := [z] + [];
    var r5 := [y] + r6;
    var r4 := [h] + r5;
    var r3 := [x] + r4;
    var r2 := [b] + r3;
    var r1 := [v] + r2;
    LeadsNowhere(a, r1);
    LeadsNowhere(x, r4);
    LeadsNowhere(b, r3);
    PlainLineKept(AT_ROOT, a, r1);
    HeaderFirst(AT_ROOT, v, r2);
    PlainLineKept(t, b, r3);
    PlainLineKept(t, x, r4);
    HeaderFirst(t, h, r5);
    HeaderFirst(StripState(Some(h.header), false), y, r6);
    DropBody(z);
  }

  lemma TextsOfFive(a: TomlLine, b: TomlLine, c: TomlLine, d: TomlLine, e: TomlLine)
    ensures Texts([a] + ([b] + ([c] + ([d] + ([e] + [])))))
      == [a.text] + ([b.text] + ([c.text] + ([d.text] + ([e.text] + []))))
  {}

  lemma FiveKept(a: Line, v: Line, b: Line, x: Line, h: Line, y: Line, z: Line)
    requires KeyBelowString(a, v, b, x, h, y, z)
    ensures var existing := [a] + ([v] + ([b] + ([x] + ([h] + ([y] + ([z] + []))))));
      !Closes(existing) && Kept(existing) == [a] + ([v] + ([b] + ([x] + ([h] + []))))
  {
    RootInPlainPass(a, v, b, x, h, y, z);
    AppendToFour(a, v, b, x, [h] + ([y] + ([z] + [])));
    SevenInRecovery(a, v, b, x, h, y, z);
    ManagedKeyIsNotFiller(x);
    var ca, cv, cb := TomlLine(a, false, "", false), TomlLine(v, true, Shape(v).value, false),
      TomlLine(b, false, "", false);
    var cx, ch := TomlLine(x, false, "", false), TomlLine(h, true, Shape(h).value, false);
    StripSeven(ca, cv, cb, cx, ch, TomlLine(y, true, MANAGED_TABLE, false), TomlLine(z, false, "", false));
    TextsOfFive(ca, cv, cb, cx, ch);
  }

  // The lines that survive, and how a plain pass reads them.
  lemma FiveScan(a: Line, v: Line, b: Line, x: Line, h: Line, y: Line, z: Line)
    requires KeyBelowString(a, v, b, x, h, y, z)
    ensures var root, kept := [a] + ([v] + ([b] + ([x] + []))), [a] + ([v] + ([b] + ([x] + ([h] + []))));
      && kept == root + ([h] + []) && Closes(kept)
      && Scan(kept) == Classify(FRESH, root, false) + Classify(FRESH, [h] + [], false)
  {
    RootInPlainPass(a, v, b, x, h, y, z);
    FourAndTail(a, v, b, x, [h] + []);
    ClassifyConcat(FRESH, [a] + ([v] + ([b] + ([x] + []))), [h] + [], false);
  }

  lemma FourStop(a: TomlLine, v: TomlLine, b: TomlLine, x: TomlLine)
    requires !a.isHeader && !v.isHeader && !b.isHeader && !x.isHeader && !Filler(x.text)
    ensures var r := [a] + ([v] + ([b] + ([x] + []))); NoHeader(r) && Stops(r)
  {
    var r := [a] + ([v] + ([b] + ([x] + [])));
    assert r[3] == x;
  }

  lemma CutAboveHeader(r: seq<TomlLine>, h: TomlLine)
    requires NoHeader(r) && Stops(r) && h.isHeader && !h.continuation
    ensures SplitIndex(r + ([h] + [])) == |r| && Apart(r + ([h] + []))
  {
    var t := [h] + [];
    assert t[1..] == [] && t[0] == h;
    NoLeadInside(r, t);
    assert (r + t)[|r|..] == t;
    SplitIndexIs(r + t, |r|);
    NoHeaderApart(r);
    ApartConcat(r, t);
  }

  lemma FiveParts(a: Line, v: Line, b: Line, x: Line, h: Line, y: Line, z: Line)
    requires KeyBelowString(a, v, b, x, h, y, z)
    ensures var kept := [a] + ([v] + ([b] + ([x] + ([h] + []))));
      PartsOf(kept) == Parts([a] + ([v] + ([b] + ([x] + []))), [h] + []) && Apart(Scan(kept))
  {
    var root, kept := [a] + ([v] + ([b] + ([x] + []))), [a] + ([v] + ([b] + ([x] + ([h] + []))));
    RootInPlainPass(a, v, b, x, h, y, z);
    FiveScan(a, v, b, x, h, y, z);
    ManagedKeyIsNotFiller(x);
    HeaderIsNotFiller(h);
    FourStop(TomlLine(a, false, "", false), TomlLine(v, false, "", true), TomlLine(b, false, "", true),
      TomlLine(x, false, "", false));
    CutAboveHeader(Classify(FRESH, root, false), TomlLine(h, true, Shape(h).value, false));
    CutAt(kept, root, [h] + []);
    KeptTrimmed(root);
    KeptTrimmed([h] + []);
  }

  lemma KeptTrimmed(ls: seq<Line>)
    requires ls != [] && !Blank(ls[0]) && !Blank(ls[|ls| - 1])
    ensures TrimBlank(ls) == ls
  {
    TrimIgnoresBlanks([], ls, []);
    assert [] + ls + [] == ls;
  }

  lemma StringMeetsHeader(a: TomlLine, v: TomlLine, b: TomlLine, x: TomlLine, h: TomlLine)
    requires !a.continuation && !a.isHeader && !Filler(a.text) && !ManagedKey(a.text)
    requires v.continuation && !v.isHeader
    requires b.continuation && !b.isHeader && Comment(b.text)
    requires !x.continuation && !x.isHeader && ManagedKey(x.text) && !Filler(x.text)
    requires h.isHeader
    ensures !Apart(Strip(AT_ROOT, [a] + ([v] + ([b] + ([x] + [])))) + ([h] + []))
  {
    var r3 := [x] + [];
    var r2 := [b] + r3;
    var r1 := [v] + r2;
    LeadsNowhere(a, r1);
    LeadsNowhere(x, []);
    LeadsNowhere(b, r3);
    LeadsNowhere(v, r2);
    PlainLineKept(AT_ROOT, a, r1);
    assert r1[1..] == r2 && r2[1..] == r3 && r3[1..] == [];
    assert Strip(AT_ROOT, r3) == [];
    assert Strip(AT_ROOT, r2) == [b];
    assert Strip(AT_ROOT, r1) == [v] + [b];
    var cs := [a] + ([v] + [b]) + ([h] + []);
    assert cs[1..][1..] == [b] + ([h] + []) && ([b] + ([h] + []))[1..] == [h] + [];
    StringEnds(b, h);
    assert !Apart(cs[1..]);
  }

  lemma StringEnds(b: TomlLine, h: TomlLine)
    requires b.continuation && !b.isHeader && Comment(b.text) && h.isHeader
    ensures !Apart([b] + ([h] + []))
  {
    assert ([b] + ([h] + []))[1..] == [h] + [] && ([h] + [])[0] == h;
    assert Lead([h] + []) == Some(h.header);
    assert Lead([b] + ([h] + [])) == Some(h.header);
  }

  /** The file is whole and the first delivery puts one gateway table in it; the
      second writes it inside the string, and there is none. */
  lemma TableLostLater(a: Line, v: Line, b: Line, x: Line, h: Line, y: Line, z: Line,
    f: Fragment, allowed: seq<string>, f': Fragment, allowed': seq<string>)
    requires KeyBelowString(a, v, b, x, h, y, z) && f.Valid() && f'.ValidFor(true)
    ensures var existing := [a] + ([v] + ([b] + ([x] + ([h] + ([y] + ([z] + []))))));
      var once := Merge(existing, f, allowed);
      && Whole(existing) && !Lasting(existing) && !Whole(once)
      && ManagedHeaders(Scan(once)) == 1 && ManagedHeaders(Scan(Merge(once, f', allowed'))) == 0
  {
    var existing := [a] + ([v] + ([b] + ([x] + ([h] + ([y] + ([z] + []))))));
    FiveKept(a, v, b, x, h, y, z);
    FiveScan(a, v, b, x, h, y, z);
    FiveParts(a, v, b, x, h, y, z);
    RootInPlainPass(a, v, b, x, h, y, z);
    ManagedKeyIsNotFiller(x);
    StringMeetsHeader(TomlLine(a, false, "", false), TomlLine(v, false, "", true), TomlLine(b, false, "", true),
      TomlLine(x, false, "", false), TomlLine(h, true, Shape(h).value, false));
    MergedFile(existing, f, allowed);
    WholeAgain(existing, f, allowed);
    SecondDelivery(existing, f, allowed, f', allowed');
  }

  lemma KeyBelowStringExists()
    ensures exists a, v, b, x, h, y, z :: KeyBelowString(a, v, b, x, h, y, z)
  {
    var a := OpenerExists();
    var v := HeaderExists();
    var b := CloserExists();
    var z := ArrayOpenerExists();
    GatewayConfig.ModelIsRootLine([]);
    GatewayConfig.HeaderRendered();
    assert KeyBelowString(a, v, b, GatewayConfig.ModelLine([]), v, "[" + MANAGED_TABLE + "]", z);
  }

  // ---- a model that is not read back ----

  const SPELLED: string := "\"a\\x20#b\""
  const NAME: string := "a" + (" " + ("#" + ("b" + "")))

  lemma HexTwenty()
    ensures UnquoteChar("\\x20#b\"") == Some((' ', 4))
  {
    var s := "\\x20#b\"";
    assert s[2..4] == "20";
    assert "20"[..1] == "2" && "2"[..0] == "";
    assert UnHex("2") == Some(2);
    assert UnHex("20") == Some(32);
    assert 32 as char == ' ';
  }

  lemma SpelledTail()
    ensures UnquoteTail("a" + "\\x20#b\"") == Some(NAME)
  {
    var s := "\\x20#b\"";
    assert s[4..] == "#" + ("b" + "\"");
    HexTwenty();
  }

  lemma SpelledValue()
    ensures ValueOf(CutComment(SPELLED)) == Some(NAME)
  {
    SpelledTail();
    NoHashIn(SPELLED);
    assert SPELLED[1..] == "a" + "\\x20#b\"";
  }

  lemma NoHashIn(s: string)
    requires ' ' !in s
    ensures HashIndex(s, 0) == |s|
  {}

  lemma SpelledKey(l: Line)
    requires l == "model" + " =" + (" " + SPELLED)
    ensures Shape(l).None? && !Filler(l) && KeyOf(l) == Some("model")
  {
    StartsPlainly(l);
    KeyBefore("model", " " + SPELLED);
  }

  lemma ModelKept(l: Line, v: string, allowed: seq<string>)
    requires Shape(l).None? && !Filler(l) && KeyOf(l) == Some("model") && Advance(FRESH, l, 0) == FRESH
    requires ReadValue(TrimSpace(l)) == Some(v) && v != [] && v in allowed
    ensures KeptModel([l], allowed) == Some(v) && Whole([l]) && Closes(Kept([l]))
  {
    CleanIsWhole([l]);
    assert [l][1..] == [];
    assert NextState(FRESH, l, false) == FRESH;
    assert Closes([l]);
    KeptScansTheSame(FRESH, AT_ROOT, [l]);
  }

  lemma SpelledCloses(l: Line)
    requires l == "model" + " =" + (" " + SPELLED)
    ensures Advance(FRESH, l, 0) == FRESH
  {
    assert l[8..] == SPELLED == GatewayConfig.Quoted("a\\x20#b");
    GatewayConfig.QuotedEnd(FRESH, l, 8, "a\\x20#b");
  }

  lemma SpelledLine(l: Line)
    requires l == "model" + " =" + (" " + SPELLED)
    ensures ReadValue(TrimSpace(l)) == ValueOf(CutComment(SPELLED))
  {
    assert l[6] == '=' && l[7..] == " " + SPELLED && forall k :: 0 <= k < 6 ==> l[k] != '=';
    ReadsTail(l, 6, SPELLED);
  }

  /** An employee's model spelled with an escape is kept by the first merge and
      lost by the second, for every fragment with a model of its own. */
  lemma ModelWithHashIsLost(f: Fragment, allowed: seq<string>)
    requires f.Valid() && Canonical(f) && WithModel(f, NAME) != f && NAME in allowed
    ensures var existing := ["model" + " =" + (" " + SPELLED)];
      var once := Merge(existing, f, allowed);
      && Chosen(f, existing, allowed) == WithModel(f, NAME)
      && LosesChoice(existing, f, allowed) && Merge(once, f, allowed) != once
  {
    var l := "model" + " =" + (" " + SPELLED);
    SpelledModel(l, allowed);
    NameHasHash();
    HashIsLost([l], f, NAME, allowed);
  }

  lemma NameHasHash()
    ensures HasHash(NAME)
  {
    HasHashAt(NAME, 1);
  }

  lemma HashIsLost(existing: seq<Line>, f: Fragment, m: string, allowed: seq<string>)
    requires Whole(existing) && Closes(Kept(existing)) && KeptModel(existing, allowed) == Some(m)
    requires f.Valid() && Canonical(f) && WithModel(f, m) != f && HasHash(m)
    ensures Chosen(f, existing, allowed) == WithModel(f, m) && LosesChoice(existing, f, allowed)
    ensures Merge(Merge(existing, f, allowed), f, allowed) != Merge(existing, f, allowed)
  {
    Redelivery(existing, f, allowed);
  }

  lemma SpelledModel(l: Line, allowed: seq<string>)
    requires l == "model" + " =" + (" " + SPELLED) && NAME in allowed
    ensures KeptModel([l], allowed) == Some(NAME) && Whole([l]) && Closes(Kept([l]))
  {
    SpelledValue();
    SpelledKey(l);
    SpelledLine(l);
    SpelledCloses(l);
    ModelKept(l, NAME, allowed);
  }

  // ---- a fragment that ends the employee's string ----

  /** A line of the employee's that opens a string and leaves it open. */
  predicate OpensOnly(a: Line) {
    Shape(a).None? && !Filler(a) && !ManagedKey(a) && Advance(FRESH, a, 0) == IN_SINGLE
  }

  lemma OpenFile(a: Line)
    requires OpensOnly(a)
    ensures !Closes([a]) && Kept([a]) == [a] && PartsOf([a]) == Parts([a], []) && Whole([a])
    ensures EndState(FRESH, [a], false) == IN_SINGLE
  {
    var c := TomlLine(a, false, "", false);
    assert [a][1..] == [] && [c][1..] == [];
    assert NextState(FRESH, a, false) == IN_SINGLE;
    assert EndState(FRESH, [a], false) == EndState(IN_SINGLE, [], false);
    assert Scan([a]) == [c];
    LeadsNowhere(c, []);
    assert [c] + [] == [c];
    assert Strip(AT_ROOT, [c]) == [c];
    AllRoot([a]);
    NoLeadInside([c], []);
    SplitIndexIs([c], 1);
    CutAt([a], [a], []);
  }

  /** The merged file closes, and its table is inside the string: a fragment that is
      not sealed cannot be merged into every file. */
  lemma TableInOpenString(a: Line, f: Fragment, allowed: seq<string>)
    requires OpensOnly(a) && f.Valid() && EndState(IN_SINGLE, f.Tables(), false) == FRESH
    ensures Whole([a]) && Closes(Merge([a], f, allowed)) && ManagedHeaders(Scan(Merge([a], f, allowed))) == 0
  {
    var f1 := Chosen(f, [a], allowed);
    OpenFile(a);
    ChosenValid(f, [a], allowed);
    ScanOverOpen(f1, a);
    TablesHidden(f1, IN_SINGLE);
    RootHeaderless(f1, false);
    NoManagedHeaders(Classify(FRESH, f1.root, false));
    SepHeaders(FRESH, [a], false);
    OpenerIsNoHeader(a);
    NoManagedHeaders(Classify(FRESH, [a], false));
    CountFour(Classify(FRESH, f1.root, false), Classify(FRESH, Sep([a]), false), TablesRun(f1, IN_SINGLE, false), []);
  }

  lemma ClosesOverOpen(f: Fragment, a: Line)
    requires f.Valid() && OpensOnly(a) && EndState(IN_SINGLE, f.Tables(), false) == FRESH
    ensures Closes(Assembled(f, Parts([a], [])))
  {
    OpenFile(a);
    RootLinesScan(f.root, false);
    SepScan(FRESH, [a], false);
    SepScan(IN_SINGLE, f.Tables(), false);
    assert Sep(f.Tables()) == [""] + f.Tables();
    EndsOver(f.root, Sep([a]), [""] + f.Tables());
  }

  lemma ScanOverOpen(f: Fragment, a: Line)
    requires f.Valid() && OpensOnly(a) && EndState(IN_SINGLE, f.Tables(), false) == FRESH
    ensures var m := Assembled(f, Parts([a], []));
      && Closes(m)
      && Scan(m) == Classify(FRESH, f.root, false)
        + (Classify(FRESH, Sep([a]), false) + (TablesRun(f, IN_SINGLE, false) + []))
  {
    ClosesOverOpen(f, a);
    OpenFile(a);
    SectionsScan(f, Parts([a], []), false);
  }

  lemma OpenerIsNoHeader(a: Line)
    requires OpensOnly(a)
    ensures NoManagedHeader(Classify(FRESH, [a], false))
  {
    assert Classify(FRESH, [a], false)[0] == ClassifyLine(FRESH, a, false);
  }

  lemma EndsOver(r: seq<Line>, a: seq<Line>, t: seq<Line>)
    requires EndState(FRESH, r, false) == FRESH
    ensures EndState(FRESH, r + (a + (t + Sep([]))), false) == EndState(EndState(FRESH, a, false), t, false)
  {
    assert t + Sep([]) == t;
    EndStateConcat(FRESH, r, a + t, false);
    EndStateConcat(FRESH, a, t, false);
  }

  // The token that the renderer would have to write for that.
  const ENDING: string := "\'\'\'"

  lemma NoSingles(l: Line, i: nat)
    requires i <= |l| && '\'' !in l
    ensures Advance(IN_SINGLE, l, i) == IN_SINGLE
    decreases |l| - i
  {
    if i < |l| {
      assert l[i] in l;
      NoSingles(l, i + 1);
    }
  }

  lemma ClosesBefore(l: Line, i: nat, k: nat)
    requires i <= k && k + 4 == |l| && TripleAt(l, k, '\'') && l[k + 3] == '"' && forall j :: 0 <= j < k ==>
      l[j] != '\''
    ensures Advance(IN_SINGLE, l, i) == FRESH
    decreases k - i
  {
    if i < k {
      ClosesBefore(l, i + 1, k);
    } else {
      assert Advance(IN_SINGLE, l, k) == Advance(FRESH, l, k + 3);
    }
  }

  lemma EndingToken()
    ensures Advance(IN_SINGLE, GatewayConfig.TokenLine(ENDING), 0) == FRESH
  {
    var l := GatewayConfig.TokenLine(ENDING);
    GatewayConfig.AssignParts("experimental_bearer_token", 26, Quote(ENDING));
    EndingQuoted();
    assert l[28..] == Quote(ENDING) && |l| == 33;
    assert l[28] == l[28..][0] && l[29] == l[28..][1] && l[30] == l[28..][2] && l[31] == l[28..][3]
      && l[32] == l[28..][4];
    ClosesBefore(l, 0, 29);
  }

  lemma EndingQuoted()
    ensures Quote(ENDING) == "\"\'\'\'\""
  {
    assert ENDING[1..] == "\'\'" && ENDING[1..][1..] == "\'" && ENDING[1..][1..][1..] == [];
    assert QuoteChar('\'') == ['\''];
    assert QuoteBody("\'") == "\'" + QuoteBody([]) == "\'";
    assert QuoteBody("\'\'") == "\'\'";
    assert QuoteBody(ENDING) == "\'\'\'";
  }

  lemma EndsInBody(header: Line, n: Line, u: Line, w: Line, t: Line)
    requires Advance(IN_SINGLE, header, 0) == IN_SINGLE && Advance(IN_SINGLE, n, 0) == IN_SINGLE
    requires Advance(IN_SINGLE, u, 0) == IN_SINGLE && Advance(IN_SINGLE, w, 0) == IN_SINGLE
    requires Advance(IN_SINGLE, t, 0) == FRESH
    ensures EndState(IN_SINGLE, [] + [header] + [n, u, w, t], false) == FRESH
  {
    assert [] + [header] + [n, u, w, t] == [header, n, u, w] + [t];
    StaysInSingle([header, n, u, w]);
    EndStateConcat(IN_SINGLE, [header, n, u, w], [t], false);
    EndsInSingle(t);
  }

  lemma {:induction false} StaysInSingle(ls: seq<Line>)
    requires forall l :: l in ls ==> Advance(IN_SINGLE, l, 0) == IN_SINGLE
    ensures EndState(IN_SINGLE, ls, false) == IN_SINGLE
    decreases |ls|
  {
    if ls != [] {
      assert ls[0] in ls;
      StaysInSingle(ls[1..]);
    }
  }

  lemma EndsInSingle(t: Line)
    requires Advance(IN_SINGLE, t, 0) == FRESH
    ensures EndState(IN_SINGLE, [t], false) == FRESH
  {
    assert [t][1..] == [];
  }

  /** Such a token exists, so the renderer's fragment is not always sealed. */
  lemma UnsealedExists(baseURL: string, windowsUser: string, allowed: seq<string>)
    requires '"' !in windowsUser && '\'' !in GatewayConfig.UrlLine(baseURL)
    ensures var f := GatewayConfig.Rendered(baseURL, windowsUser, allowed, ENDING);
      f.Valid() && EndState(IN_SINGLE, f.Tables(), false) == FRESH
  {
    var f := GatewayConfig.Rendered(baseURL, windowsUser, allowed, ENDING);
    GatewayConfig.RenderedIsValid(baseURL, windowsUser, allowed, ENDING);
    FixedLinesStay();
    NoSingles(GatewayConfig.UrlLine(baseURL), 0);
    EndingToken();
    EndsInBody(f.header, GatewayConfig.NameLine(), GatewayConfig.UrlLine(baseURL), GatewayConfig.WireLine(),
      GatewayConfig.TokenLine(ENDING));
  }

  lemma FixedLinesStay()
    ensures Advance(IN_SINGLE, "[" + MANAGED_TABLE + "]", 0) == IN_SINGLE
    ensures Advance(IN_SINGLE, GatewayConfig.NameLine(), 0) == IN_SINGLE
    ensures Advance(IN_SINGLE, GatewayConfig.WireLine(), 0) == IN_SINGLE
  {
    GatewayConfig.HeaderRendered();
    GatewayConfig.FixedBodyLines();
  }

  // ---- carriage returns ----

  function Rets(n: nat): string {
    seq(n, _ => '\r')
  }

  lemma DropOne(l: Line, n: nat)
    requires Clean(l)
    ensures DropCR(l + Rets(n)) == l + Rets(if n > 0 then n - 1 else 0)
    ensures Clean(l + Rets(n)) <==> n == 0
  {
    if n > 0 {
      assert (l + Rets(n))[|l + Rets(n)| - 1] == '\r';
      assert (l + Rets(n))[..|l + Rets(n)| - 1] == l + Rets(n - 1);
    } else {
      assert l + Rets(0) == l;
    }
  }

  lemma {:induction false} PlainWithReturns(l: Line, n: nat)
    requires OwnLine(l) && Clean(l)
    ensures OwnLine(l + Rets(n))
  {
    if n == 0 {
      assert l + Rets(0) == l;
    } else {
      PlainWithReturns(l, n - 1);
      DropOne(l, n);
      SameReading(l + Rets(n));
    }
  }

  lemma OneLineFile(m: Line)
    requires OwnLine(m)
    ensures Closes([m]) && Kept([m]) == [m] && PartsOf([m]) == Parts([m], []) && Settled([m]) && Whole([m])
    ensures Scan([m]) == [TomlLine(m, false, "", false)]
  {
    var c := TomlLine(m, false, "", false);
    assert [m][1..] == [] && [c][1..] == [];
    assert Scan([m]) == [c];
    LeadsNowhere(c, []);
    assert [c] + [] == [c];
    assert Strip(AT_ROOT, [c]) == [c];
    AllRoot([m]);
    NoLeadInside([c], []);
    SplitIndexIs([c], 1);
    CutAt([m], [m], []);
    CleanIsWhole([m]);
    ClosedIsSettled([m]);
  }

  lemma NoModelKept(m: Line, f: Fragment, allowed: seq<string>)
    requires OwnLine(m)
    ensures Chosen(f, [m], allowed) == f && !LosesChoice([m], f, allowed)
  {
    OneLineFile(m);
    var c := TomlLine(m, false, "", false);
    assert [c][1..] == [];
    assert "model" in MANAGED_KEYS;
    assert KeyOf(m) != Some("model");
    assert RootString(None, [c], "model") == RootString(None, [], "model") == None;
  }

  /** A line of the employee's with n carriage returns at its end: the second
      delivery repeats the first exactly when there are two at most. */
  lemma ReturnsRepeat(l: Line, n: nat, f: Fragment, allowed: seq<string>)
    requires OwnLine(l) && Clean(l) && Bytes(l + Rets(n)) < LINE_LIMIT
    requires f.Valid() && Canonical(f) && CleanLines(f.AllLines()) && Fits(f.AllLines())
    ensures var existing, incoming := Join([l + Rets(n)]), Join(f.AllLines());
      var merged := MergeText(Some(existing), incoming, allowed);
      MergeText(Some(merged), incoming, allowed) == merged <==> n <= 2
  {
    var once := if n > 0 then n - 1 else 0;
    var left := if once > 0 then once - 1 else 0;
    ReturnsLeft(l, n, once, left);
    PlainWithReturns(l, left);
    DropOne(l, left);
    OneLineRepeats(Join([l + Rets(n)]), l + Rets(left), f, allowed);
  }

  lemma OneLineRepeats(existing: string, m: Line, f: Fragment, allowed: seq<string>)
    requires Scannable(existing) && ReadBack(existing) == [m] && OwnLine(m)
    requires f.Valid() && Canonical(f) && CleanLines(f.AllLines()) && Fits(f.AllLines())
    ensures var incoming := Join(f.AllLines());
      var merged := MergeText(Some(existing), incoming, allowed);
      MergeText(Some(merged), incoming, allowed) == merged <==> Clean(m)
  {
    OneLineFile(m);
    NoModelKept(m, f, allowed);
    assert ReturnsGone([m]) <==> Clean(m);
    RedeliveryOfContents(existing, f, allowed);
  }

  lemma ReturnsLeft(l: Line, n: nat, once: nat, left: nat)
    requires Clean(l) && once == (if n > 0 then n - 1 else 0) && left == if once > 0 then once - 1 else 0
    requires Bytes(l + Rets(n)) < LINE_LIMIT
    ensures Scannable(Join([l + Rets(n)])) && ReadBack(Join([l + Rets(n)])) == [l + Rets(left)]
  {
    var ls := [l + Rets(n)];
    assert forall c :: c in l + Rets(n) ==> c in l || c == '\r';
    DropOne(l, n);
    DropOne(l, once);
    JoinThenRead(ls);
    JoinScannable(ls);
    assert DropReturns(ls) == [l + Rets(once)];
    assert DropReturns(DropReturns(ls)) == [l + Rets(left)];
  }
}
