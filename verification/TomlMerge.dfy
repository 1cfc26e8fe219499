/** The merge of a delivered fragment into an employee's config.toml: what
    redelivery writes, and what any sequence of deliveries does to any file. */
module TomlMerge {
  import opened Text
  import opened GoQuote
  import opened TomlScan
  import opened TomlSections
  import opened TomlStrip
  import opened TomlStability
  import opened TomlAssembly
  import opened TomlRedelivery
  import opened TomlConvergence
  import opened TomlLasting
  import opened TomlModel

  // ---- the merge on lines ----

  function SetModel(ls: seq<Line>, v: string): (r: seq<Line>)
    ensures |r| == |ls|
    ensures forall i :: 0 <= i < |ls| ==> r[i] == if KeyOf(ls[i]) == Some("model") then SetValue(ls[i], v) else ls[i]
  {
    seq(|ls|, i requires 0 <= i < |ls| => if KeyOf(ls[i]) == Some("model") then SetValue(ls[i], v) else ls[i])
  }

  function WithModel(f: Fragment, v: string): Fragment {
    f.(root := SetModel(f.root, v))
  }

  /** The model the employee chose, when the delivered catalog still offers it. */
  function KeptModel(existing: seq<Line>, allowed: seq<string>): Option<string> {
    var current := RootString(None, Scan(existing), "model");
    if current.Some? && current.value != "" && current.value in allowed then current else None
  }

  function Chosen(f: Fragment, existing: seq<Line>, allowed: seq<string>): Fragment {
    var m := KeptModel(existing, allowed);
    if m.Some? then WithModel(f, m.value) else f
  }

  function Merge(existing: seq<Line>, f: Fragment, allowed: seq<string>): seq<Line> {
    Assembled(Chosen(f, existing, allowed), PartsOf(Kept(existing)))
  }

  /** The renderer's root: one model at most, written as strconv.Quote does. */
  ghost predicate Canonical(f: Fragment) {
    && (forall i, j :: 0 <= i < j < |f.root| && KeyOf(f.root[i]) == Some("model") ==> KeyOf(f.root[j]) != Some("model"))
    && (forall l :: l in f.root && KeyOf(l) == Some("model") ==> exists v :: SetValue(l, v) == l)
  }

  // ---- the chosen fragment ----

  lemma WithModelValid(f: Fragment, v: string)
    requires f.Valid()
    ensures WithModel(f, v).Valid()
  {
    var r := SetModel(f.root, v);
    forall l | l in r
      ensures RootLine(l)
    {
      var i :| 0 <= i < |r| && r[i] == l;
      assert RootLine(f.root[i]) by {
        assert f.root[i] in f.root;
      }
      if KeyOf(f.root[i]) == Some("model") {
        SetValueRootLine(f.root[i], v);
      }
    }
  }

  lemma ChosenValid(f: Fragment, existing: seq<Line>, allowed: seq<string>)
    requires f.Valid()
    ensures Chosen(f, existing, allowed).Valid() && (f.Sealed() ==> Chosen(f, existing, allowed).Sealed())
  {
    var m := KeptModel(existing, allowed);
    if m.Some? {
      WithModelValid(f, m.value);
    }
  }

  predicate ModelAt(f: Fragment, i: nat) {
    && i < |f.root| && KeyOf(f.root[i]) == Some("model")
    && forall j :: 0 <= j < i ==> KeyOf(f.root[j]) != Some("model")
  }

  lemma AssignsHere(r: seq<TomlLine>, x: seq<TomlLine>, key: string)
    requires r != [] && NoHeader(r) && Stops(r)
    ensures AssignsAtRoot(None, r + x, key) <==> !r[0].continuation && KeyOf(r[0].text) == Some(key)
    ensures (r + x)[0] == r[0] && (r + x)[1..] == r[1..] + x
  {
    LeadConcat(r, x);
    NoHeaderNoLead(r);
  }

  lemma {:induction false} FirstAssignment(r: seq<TomlLine>, x: seq<TomlLine>, i: nat, key: string)
    requires i < |r| && NoHeader(r) && Stops(r)
    requires !r[i].continuation && KeyOf(r[i].text) == Some(key)
    requires forall j :: 0 <= j < i ==> KeyOf(r[j].text) != Some(key)
    ensures RootString(None, r + x, key) == ReadValue(TrimSpace(r[i].text))
    decreases i
  {
    AssignsHere(r, x, key);
    if i > 0 {
      assert r[0].text == r[0].text && !AssignsAtRoot(None, r + x, key);
      FirstAssignment(r[1..], x, i - 1, key);
    }
  }

  /** The model read from a merged file is the one its fragment carries. */
  lemma ModelReadBack(f: Fragment, k: Parts, recover: bool, i: nat)
    requires f.ValidFor(recover) && Sound(k, recover) && ModelAt(f, i)
    ensures RootString(None, Scan(Assembled(f, k)), "model") == ReadValue(TrimSpace(f.root[i]))
  {
    AssembledScan(f, k, recover);
    RootHeaderless(f, recover);
    RootLinesScan(f.root, recover);
    FirstAssignment(Classify(FRESH, f.root, recover), Classify(FRESH, Sep(k.root), recover)
      + (Classify(EndState(FRESH, k.root, recover), [""] + f.Tables(), recover)
        + Classify(FRESH, Sep(k.tables), recover)),
      i, "model");
  }

  lemma WithModelAt(f: Fragment, v: string, i: nat)
    requires f.Valid() && ModelAt(f, i)
    ensures ModelAt(WithModel(f, v), i) && WithModel(f, v).root[i] == SetValue(f.root[i], v)
  {
    SetValueKey(f.root[i], v);
  }

  lemma NoModelNoChange(f: Fragment, v: string)
    requires forall i :: 0 <= i < |f.root| ==> KeyOf(f.root[i]) != Some("model")
    ensures WithModel(f, v) == f
  {
    assert SetModel(f.root, v) == f.root;
  }

  lemma OnlyModel(f: Fragment, i: nat, j: nat)
    requires Canonical(f) && ModelAt(f, i) && j < |f.root| && j != i
    ensures KeyOf(f.root[j]) != Some("model")
  {
  }

  /** Writing the model a line already has leaves the fragment as it is. */
  lemma SameModelNoChange(f: Fragment, v: string, i: nat)
    requires Canonical(f) && ModelAt(f, i) && SetValue(f.root[i], v) == f.root[i]
    ensures WithModel(f, v) == f
  {
    forall j | 0 <= j < |f.root|
      ensures SetModel(f.root, v)[j] == f.root[j]
    {
      if j != i {
        OnlyModel(f, i, j);
      }
    }
    assert SetModel(f.root, v) == f.root;
  }

  /** A chosen model that the next merge will not recognise: it holds " #",
      which the reader takes for a comment, and it is not the delivered one. */
  predicate LosesChoice(existing: seq<Line>, f: Fragment, allowed: seq<string>) {
    var m := KeptModel(existing, allowed);
    m.Some? && HasHash(m.value) && WithModel(f, m.value) != f
  }

  /** A model written into the fragment is read back from the merged file. */
  lemma WrittenModelReadBack(f: Fragment, v: string, k: Parts, recover: bool, i: nat)
    requires f.ValidFor(recover) && Sound(k, recover) && ModelAt(f, i)
    ensures RootString(None, Scan(Assembled(WithModel(f, v), k)), "model") == if HasHash(v) then None else Some(v)
  {
    WithModelValid(f, v);
    WithModelAt(f, v, i);
    ModelReadBack(WithModel(f, v), k, recover, i);
    SetValueRead(f.root[i], v);
  }

  /** The delivered model is its own choice. */
  lemma DeliveredModelStays(f: Fragment, k: Parts, recover: bool, i: nat, allowed: seq<string>)
    requires f.ValidFor(recover) && Canonical(f) && Sound(k, recover) && ModelAt(f, i)
    ensures Chosen(f, Assembled(f, k), allowed) == f
  {
    assert f.root[i] in f.root;
    var v :| SetValue(f.root[i], v) == f.root[i];
    SameModelNoChange(f, v, i);
    WrittenModelReadBack(f, v, k, recover, i);
  }

  /** What the next merge chooses after reading the merged file. */
  lemma ChosenAgain(existing: seq<Line>, f: Fragment, allowed: seq<string>, k: Parts, recover: bool)
    requires f.ValidFor(recover) && Canonical(f) && Sound(k, recover)
    ensures var f1 := Chosen(f, existing, allowed);
      Chosen(f, Assembled(f1, k), allowed) == if LosesChoice(existing, f, allowed) then f else f1
  {
    var m := KeptModel(existing, allowed);
    if i: nat :| ModelAt(f, i) {
      if m.Some? {
        WrittenModelReadBack(f, m.value, k, recover, i);
      } else {
        DeliveredModelStays(f, k, recover, i, allowed);
      }
    } else {
      NoModelAnywhere(f);
      forall v
        ensures WithModel(f, v) == f
      {
        NoModelNoChange(f, v);
      }
    }
  }

  lemma NoModelAnywhere(f: Fragment)
    requires !exists i: nat :: ModelAt(f, i)
    ensures forall i :: 0 <= i < |f.root| ==> KeyOf(f.root[i]) != Some("model")
  {
    if i: nat :| i < |f.root| && KeyOf(f.root[i]) == Some("model") {
      FirstModel(f, i);
    }
  }

  lemma {:induction false} FirstModel(f: Fragment, i: nat)
    requires i < |f.root| && KeyOf(f.root[i]) == Some("model")
    ensures exists j: nat :: ModelAt(f, j)
  {
    if j :| 0 <= j < i && KeyOf(f.root[j]) == Some("model") {
      FirstModel(f, j);
    } else {
      assert ModelAt(f, i);
    }
  }

  // ---- redelivery ----

  /** The file without the tool's lines, read on its own, has no managed key at its root. */
  predicate Settled(existing: seq<Line>) {
    RootClean(Classify(FRESH, PartsOf(Kept(existing)).root, !Closes(Kept(existing))))
  }

  lemma {:induction false} CleanPrefix(a: seq<TomlLine>, b: seq<TomlLine>)
    requires NoHeader(a) && CleanUntilHeader(a + b)
    ensures RootClean(a)
  {
    if a != [] {
      assert (a + b)[1..] == a[1..] + b;
      CleanPrefix(a[1..], b);
      assert forall i :: 1 <= i < |a| ==> a[i] == a[1..][i - 1];
    }
  }

  lemma CleanMiddle(a: seq<TomlLine>, m: seq<TomlLine>, b: seq<TomlLine>)
    requires RootClean(a + m + b)
    ensures RootClean(m)
  {
    assert forall i :: 0 <= i < |m| ==> (a + m + b)[|a| + i] == m[i];
  }

  lemma RootScanClean(kept: seq<Line>)
    requires CleanUntilHeader(Scan(kept))
    ensures RootClean(Classify(FRESH, RootPart(kept), !Closes(kept)))
  {
    CutScan(kept);
    RootHasNoHeader(kept);
    CleanPrefixAt(Scan(kept), SplitIndex(Scan(kept)));
  }

  lemma CleanPrefixAt(cs: seq<TomlLine>, p: nat)
    requires p <= |cs| && NoHeader(cs[..p]) && CleanUntilHeader(cs)
    ensures RootClean(cs[..p])
  {
    assert cs == cs[..p] + cs[p..];
    CleanPrefix(cs[..p], cs[p..]);
  }

  lemma CleanScanIsSettled(kept: seq<Line>)
    requires CleanUntilHeader(Scan(kept))
    ensures RootClean(Classify(FRESH, PartsOf(kept).root, !Closes(kept)))
  {
    var r, a := !Closes(kept), RootPart(kept);
    RootScanClean(kept);
    var pre, post := TrimKeepsScan(FRESH, a, r);
    CleanMiddle(Classify(FRESH, pre, r), Classify(FRESH, PartsOf(kept).root, r),
      Classify(EndState(FRESH, a, r), post, r));
  }

  /** A file that closes is settled, and so is one whose unclosed value is not the tool's. */
  lemma ClosedIsSettled(existing: seq<Line>)
    requires Closes(existing) ==> Apart(Scan(existing))
    requires Closes(existing) || !Closes(Kept(existing))
    ensures Settled(existing)
  {
    ScanHeadersStartLines(FRESH, existing, !Closes(existing));
    if Closes(existing) {
      KeptIsClean(AT_ROOT, Scan(existing));
      KeptScansTheSame(FRESH, AT_ROOT, existing);
    } else {
      RecoveredRootIsClean(FRESH, FRESH, AT_ROOT, existing);
    }
    CleanScanIsSettled(Kept(existing));
  }

  lemma {:induction false} RootLinesCount(ls: seq<Line>)
    requires forall l :: l in ls ==> RootLine(l)
    ensures NonBlank(ls) == |ls|
  {
    if ls != [] {
      assert RootLine(ls[0]) by {
        assert ls[0] in ls;
      }
      ManagedKeyIsNotFiller(ls[0]);
      RootLinesCount(ls[1..]);
    }
  }

  /** The choice of model does not change how many lines are delivered. */
  lemma ChosenCount(existing: seq<Line>, f: Fragment, allowed: seq<string>)
    requires f.Valid()
    ensures NonBlank(Chosen(f, existing, allowed).AllLines()) == NonBlank(f.AllLines())
  {
    ChosenValid(f, existing, allowed);
    FragmentCount(f);
    FragmentCount(Chosen(f, existing, allowed));
  }

  lemma FragmentCount(f: Fragment)
    requires f.Valid()
    ensures NonBlank(f.AllLines()) == |f.root| + NonBlank([""] + f.Tables())
  {
    RootLinesCount(f.root);
    assert f.AllLines() == f.root + ([""] + f.Tables());
    NonBlankConcat(f.root, [""] + f.Tables());
  }

  /** How many lines of a file are not the tool's. */
  function EmployeeLines(ls: seq<Line>): nat {
    NonBlank(Kept(ls))
  }

  lemma MergeCount(existing: seq<Line>, f: Fragment, allowed: seq<string>)
    requires f.Valid()
    ensures NonBlank(Merge(existing, f, allowed)) == NonBlank(f.AllLines()) + EmployeeLines(existing)
  {
    NonBlankAssembled(Chosen(f, existing, allowed), PartsOf(Kept(existing)));
    NonBlankParts(Kept(existing));
    ChosenCount(existing, f, allowed);
  }

  lemma RootsDiffer(f: Fragment, f': Fragment, k: Parts)
    requires |f.root| == |f'.root| && f.root != f'.root
    ensures Assembled(f, k) != Assembled(f', k)
  {
    assert Assembled(f, k)[..|f.root|] == f.root;
    assert Assembled(f', k)[..|f'.root|] == f'.root;
  }

  /** Redelivering the same fragment writes the same lines exactly when the file
      is settled and the kept model can be read back. */
  lemma Redelivery(existing: seq<Line>, f: Fragment, allowed: seq<string>)
    requires Whole(existing) && f.ValidFor(!Closes(Kept(existing))) && Canonical(f)
    ensures var merged := Merge(existing, f, allowed);
      Merge(merged, f, allowed) == merged <==> Settled(existing) && !LosesChoice(existing, f, allowed)
  {
    var k, r := PartsOf(Kept(existing)), !Closes(Kept(existing));
    var f1 := Chosen(f, existing, allowed);
    var merged := Merge(existing, f, allowed);
    SurvivingPartsSound(existing);
    ChosenValid(f, existing, allowed);
    ChosenAgain(existing, f, allowed, k, r);
    if Settled(existing) {
      AssembledKept(f1, k, r);
      SurvivorsParts(k, r);
      if LosesChoice(existing, f, allowed) {
        RootsDiffer(f, f1, k);
      }
    } else {
      AssembledShrinks(f1, k, r);
      NonBlankParts(Kept(existing));
      MergeCount(existing, f, allowed);
      MergeCount(merged, f, allowed);
    }
  }

  /** For a file that closes only a model holding " #" can be in the way. */
  lemma RedeliveryToClosedFile(existing: seq<Line>, f: Fragment, allowed: seq<string>)
    requires Whole(existing) && Closes(existing) && f.Valid() && Canonical(f)
    requires forall m :: m in allowed ==> !HasHash(m)
    ensures Merge(Merge(existing, f, allowed), f, allowed) == Merge(existing, f, allowed)
  {
    ClosedIsSettled(existing);
    KeptScansTheSame(FRESH, AT_ROOT, existing);
    NothingLost(existing, f, allowed);
    Redelivery(existing, f, allowed);
  }

  /** Whatever the file, with no condition on its comments: how many managed
      headers the merged file has in its own scan. The delivered table is lost
      exactly when the kept lines close and the cut falls inside a value. */
  lemma MergedHeaderCount(existing: seq<Line>, f: Fragment, allowed: seq<string>)
    requires f.ValidFor(EndState(FRESH, RootPart(Kept(existing)), false) != FRESH)
    ensures var kept, merged := Kept(existing), Merge(existing, f, allowed);
      && Closes(merged) == Closes(kept)
      && ManagedHeaders(Scan(merged)) == ManagedHeaders(Scan(kept))
           + if Closes(kept) && !EndState(FRESH, RootPart(kept), false).Fresh() then 0 else 1
  {
    ChosenValid(f, existing, allowed);
    HeadersExactly(Chosen(f, existing, allowed), Kept(existing));
  }

  lemma MergedFile(existing: seq<Line>, f: Fragment, allowed: seq<string>)
    requires Whole(existing) && f.ValidFor(!Closes(Kept(existing)))
    ensures var merged := Merge(existing, f, allowed);
      && Settled(merged)
      && ManagedHeaders(Scan(merged)) == 1
      && EmployeeLines(merged) <= EmployeeLines(existing)
      && (Closes(merged) <==> Closes(Kept(existing)))
  {
    var k, r := PartsOf(Kept(existing)), !Closes(Kept(existing));
    var f1 := Chosen(f, existing, allowed);
    SurvivingPartsSound(existing);
    ChosenValid(f, existing, allowed);
    AssembledCloses(f1, k, r);
    OneManagedHeader(f1, k, r);
    AssembledShrinks(f1, k, r);
    NonBlankParts(Kept(existing));
    if r {
      ClosedIsSettled(existing);
      AssembledKept(f1, k, r);
      SurvivorsClose(k, r);
    } else {
      AssembledApart(f1, k);
    }
    ClosedIsSettled(Merge(existing, f, allowed));
  }

  /** One merge of the file leaves nothing inside a value that leads to a header. */
  predicate Lasting(existing: seq<Line>) {
    Closes(Kept(existing)) ==> Apart(Restripped(PartsOf(Kept(existing))))
  }

  /** What a run of deliveries needs of the file it starts from. */
  predicate Steady(existing: seq<Line>) {
    Whole(existing) && Lasting(existing)
  }

  /** A merged file is whole again exactly when the file it was made from lasts. */
  lemma WholeAgain(existing: seq<Line>, f: Fragment, allowed: seq<string>)
    requires Whole(existing) && f.ValidFor(!Closes(Kept(existing)))
    ensures Whole(Merge(existing, f, allowed)) <==> Lasting(existing)
  {
    var f1, k := Chosen(f, existing, allowed), PartsOf(Kept(existing));
    SurvivingPartsSound(existing);
    ChosenValid(f, existing, allowed);
    if Closes(Kept(existing)) {
      AssembledWholeExactly(f1, k);
    } else {
      ClosedIsSettled(existing);
      AssembledWhole(f1, k, true);
    }
  }

  lemma SettledIsSteady(existing: seq<Line>)
    requires Whole(existing) && Settled(existing)
    ensures Steady(existing)
  {
    if Closes(Kept(existing)) {
      SurvivingPartsSound(existing);
      CleanRootLasts(PartsOf(Kept(existing)));
    }
  }

  /** In particular where no comment line holds a triple quote. */
  lemma CleanIsSteady(existing: seq<Line>)
    requires CommentsClean(existing)
    ensures Steady(existing)
  {
    CleanIsWhole(existing);
    if Closes(Kept(existing)) {
      SurvivingPartsSound(existing);
      KeptClean(existing);
      PartsClean(Kept(existing));
      CleanCommentsLast(PartsOf(Kept(existing)));
    }
  }

  lemma PartsClean(kept: seq<Line>)
    requires CommentsClean(kept)
    ensures CommentsClean(PartsOf(kept).root) && CommentsClean(PartsOf(kept).tables)
  {
    assert forall l :: l in RootPart(kept) || l in TablesPart(kept) ==> l in kept;
    TrimmedText(RootPart(kept));
    TrimmedText(TablesPart(kept));
  }

  lemma MergedIsSteady(existing: seq<Line>, f: Fragment, allowed: seq<string>)
    requires Steady(existing) && f.ValidFor(!Closes(Kept(existing)))
    ensures Steady(Merge(existing, f, allowed))
    ensures Closes(Kept(Merge(existing, f, allowed))) <==> Closes(Kept(existing))
  {
    MergedFile(existing, f, allowed);
    WholeAgain(existing, f, allowed);
    SettledIsSteady(Merge(existing, f, allowed));
    MergedKeptCloses(existing, f, allowed);
  }

  lemma MergedKeptCloses(existing: seq<Line>, f: Fragment, allowed: seq<string>)
    requires Whole(existing) && f.ValidFor(!Closes(Kept(existing)))
    ensures Closes(Kept(Merge(existing, f, allowed))) <==> Closes(Kept(existing))
  {
    var k := PartsOf(Kept(existing));
    SurvivingPartsSound(existing);
    ChosenValid(f, existing, allowed);
    if Closes(Kept(existing)) {
      KeptAgain(Chosen(f, existing, allowed), k);
    } else {
      ClosedIsSettled(existing);
      AssembledKept(Chosen(f, existing, allowed), k, true);
      SurvivorsClose(k, true);
    }
  }

  /** The second of two deliveries keeps the gateway table exactly when the file
      lasts; otherwise it writes the table inside a value. */
  lemma SecondDelivery(existing: seq<Line>, f: Fragment, allowed: seq<string>, f': Fragment, allowed': seq<string>)
    requires Whole(existing) && f.ValidFor(!Closes(Kept(existing))) && f'.ValidFor(true)
    ensures ManagedHeaders(Scan(Merge(Merge(existing, f, allowed), f', allowed'))) == if Lasting(existing) then 1 else 0
  {
    var once := Merge(existing, f, allowed);
    if Lasting(existing) {
      WholeAgain(existing, f, allowed);
      MergedFile(once, f', allowed');
    } else {
      SurvivingPartsSound(existing);
      ChosenValid(f, existing, allowed);
      CutInsideValue(Chosen(f, existing, allowed), PartsOf(Kept(existing)));
      MergedHeaderCount(once, f', allowed');
    }
  }

  /** However broken the file, the third delivery writes what the second wrote. */
  lemma TwoDeliveriesSettle(existing: seq<Line>, f: Fragment, allowed: seq<string>)
    requires Steady(existing) && f.ValidFor(!Closes(Kept(existing))) && Canonical(f)
    requires forall m :: m in allowed ==> !HasHash(m)
    ensures var twice := Merge(Merge(existing, f, allowed), f, allowed);
      Merge(twice, f, allowed) == twice
  {
    var once := Merge(existing, f, allowed);
    MergedFile(existing, f, allowed);
    MergedIsSteady(existing, f, allowed);
    NothingLost(once, f, allowed);
    Redelivery(once, f, allowed);
  }

  lemma NothingLost(existing: seq<Line>, f: Fragment, allowed: seq<string>)
    requires forall m :: m in allowed ==> !HasHash(m)
    ensures !LosesChoice(existing, f, allowed)
  {}

  // ---- any sequence of deliveries ----

  datatype Delivery = Delivery(fragment: Fragment, allowed: seq<string>)

  function Deliver(existing: seq<Line>, ds: seq<Delivery>): seq<Line> {
    if ds == [] then existing
    else Merge(Deliver(existing, ds[..|ds| - 1]), ds[|ds| - 1].fragment, ds[|ds| - 1].allowed)
  }

  /** What deliveries to a file keep. */
  predicate Holds(existing: seq<Line>, after: seq<Line>) {
    && Steady(after) && EmployeeLines(after) <= EmployeeLines(existing)
    && (Closes(Kept(after)) <==> Closes(Kept(existing))) && (Closes(existing) ==> Closes(after))
  }

  lemma OneDelivery(existing: seq<Line>, before: seq<Line>, f: Fragment, allowed: seq<string>)
    requires Holds(existing, before) && f.ValidFor(!Closes(Kept(existing)))
    ensures var after := Merge(before, f, allowed);
      && Holds(existing, after) && ManagedHeaders(Scan(after)) == 1
      && NonBlank(after) <= NonBlank(f.AllLines()) + EmployeeLines(existing)
  {
    MergedFile(before, f, allowed);
    MergedIsSteady(before, f, allowed);
    MergeCount(before, f, allowed);
    if Closes(existing) {
      KeptScansTheSame(FRESH, AT_ROOT, before);
    }
  }

  lemma {:induction false} DeliveriesHold(existing: seq<Line>, ds: seq<Delivery>)
    requires Steady(existing) && forall d :: d in ds ==> d.fragment.ValidFor(!Closes(Kept(existing)))
    ensures Holds(existing, Deliver(existing, ds))
  {
    if ds != [] {
      DeliveriesHold(existing, ds[..|ds| - 1]);
      LastDelivery(existing, ds);
    }
  }

  lemma LastDelivery(existing: seq<Line>, ds: seq<Delivery>)
    requires ds != [] && ds[|ds| - 1].fragment.ValidFor(!Closes(Kept(existing)))
    requires Holds(existing, Deliver(existing, ds[..|ds| - 1]))
    ensures var after := Deliver(existing, ds);
      && Holds(existing, after) && ManagedHeaders(Scan(after)) == 1
      && NonBlank(after) <= NonBlank(ds[|ds| - 1].fragment.AllLines()) + EmployeeLines(existing)
  {
    var d := ds[|ds| - 1];
    OneDelivery(existing, Deliver(existing, ds[..|ds| - 1]), d.fragment, d.allowed);
  }

  /** After any deliveries, to any file that is steady: one managed header, and never
      more of the employee's lines than before. */
  lemma NoGrowth(existing: seq<Line>, ds: seq<Delivery>)
    requires Steady(existing) && forall d :: d in ds ==> d.fragment.ValidFor(!Closes(Kept(existing)))
    ensures var after := Deliver(existing, ds);
      && Steady(after)
      && EmployeeLines(after) <= EmployeeLines(existing)
      && (ds != [] ==> ManagedHeaders(Scan(after)) == 1
                       && NonBlank(after) <= NonBlank(ds[|ds| - 1].fragment.AllLines()) + EmployeeLines(existing))
      && (Closes(existing) ==> Closes(after))
  {
    DeliveriesHold(existing, ds);
    if ds != [] {
      DeliveriesHold(existing, ds[..|ds| - 1]);
      LastDelivery(existing, ds);
    }
  }
}
