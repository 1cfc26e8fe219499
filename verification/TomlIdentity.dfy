/** The gateway identity of a config.toml depends only on what the tool delivered. */
module TomlIdentity {
  import opened Text
  import opened TomlScan
  import opened TomlSections
  import opened TomlStrip
  import opened TomlStability
  import opened TomlAssembly
  import opened TomlRedelivery
  import opened TomlConvergence
  import opened TomlModel
  import opened TomlMerge
  import opened TomlMeaning

  /** The identity of a file, read off its meaning. */
  function IdentityOf(es: seq<Entry>): string {
    if es == [] then [] else IdentityLine(es[0].table, es[0].first, es[0].text) + IdentityOf(es[1..])
  }

  lemma {:induction false} IdentityConcat(a: seq<Entry>, b: seq<Entry>)
    ensures IdentityOf(a + b) == IdentityOf(a) + IdentityOf(b)
  {
    if a == [] {
      assert a + b == b;
    } else {
      assert (a + b)[1..] == a[1..] + b;
      IdentityConcat(a[1..], b);
    }
  }

  /** The identity computed through the owner map is the identity of the meaning. */
  lemma {:induction false} IdentityReads(st: ScanState, table: Option<string>, head: Line, ls: seq<Line>)
    ensures Identity(table, Classify(st, ls, false)) == IdentityOf(Read(table, head, Classify(st, ls, false)))
    decreases |ls|
  {
    if ls != [] {
      var cs := Classify(st, ls, false);
      assert cs[1..] == Classify(NextState(st, ls[0], false), ls[1..], false);
      if !cs[0].isHeader && Lead(cs).Some? {
        LeadIsFiller(cs);
      }
      IdentityConcat(LineEntries(table, head, cs[0]), Read(Enter(table, cs[0]), NextHead(head, cs[0]), cs[1..]));
      IdentityReads(NextState(st, ls[0], false), Enter(table, cs[0]), NextHead(head, cs[0]), ls[1..]);
    }
  }

  predicate HeadsAreFirst(es: seq<Entry>) {
    forall i :: 0 <= i < |es| && es[i].first ==> es[i].head == es[i].text
  }

  lemma {:induction false} ReadHeads(table: Option<string>, head: Line, cs: seq<TomlLine>)
    ensures HeadsAreFirst(Read(table, head, cs))
    decreases |cs|
  {
    if cs != [] {
      ReadHeads(Enter(table, cs[0]), NextHead(head, cs[0]), cs[1..]);
    }
  }

  /** What is not the tool's does not enter the identity. */
  lemma {:induction false} IdentityIsOurs(es: seq<Entry>)
    requires HeadsAreFirst(es)
    ensures IdentityOf(es) == IdentityOf(Ours(es))
  {
    if es != [] {
      IdentityIsOurs(es[1..]);
      if Managed(es[0]) {
        assert Ours(es)[1..] == Ours(es[1..]);
      } else {
        assert Ours(es) == Ours(es[1..]);
        assert IdentityLine(es[0].table, es[0].first, es[0].text) == [];
      }
    }
  }

  /** The identity of a list of root assignments. */
  function RootIdentity(ls: seq<Line>): string {
    if ls == [] then [] else IdentityLine(None, true, ls[0]) + RootIdentity(ls[1..])
  }

  lemma {:induction false} RootIdentityReads(head: Line, ls: seq<Line>)
    requires forall l :: l in ls ==> RootLine(l)
    ensures IdentityOf(Read(None, head, Classify(FRESH, ls, false))) == RootIdentity(ls)
    decreases |ls|
  {
    if ls != [] {
      assert RootLine(ls[0]) by {
        assert ls[0] in ls;
      }
      ManagedKeyIsNotFiller(ls[0]);
      assert Classify(FRESH, ls, false)[1..] == Classify(FRESH, ls[1..], false);
      IdentityConcat(LineEntries(None, head, Classify(FRESH, ls, false)[0]),
        Read(None, ls[0], Classify(FRESH, ls[1..], false)));
      RootIdentityReads(ls[0], ls[1..]);
    }
  }

  lemma ModelIsNoProvider()
    ensures Some("model") != Some("model_provider")
  {
    assert |"model"| == 5 && |"model_provider"| == 14;
  }

  lemma ModelLineSaysNothing(l: Line, v: string)
    requires KeyOf(l) == Some("model")
    ensures IdentityLine(None, true, l) == [] && IdentityLine(None, true, SetValue(l, v)) == []
  {
    SetValueKey(l, v);
    ModelIsNoProvider();
  }

  lemma {:induction false} ModelIsNoIdentity(ls: seq<Line>, v: string)
    ensures RootIdentity(SetModel(ls, v)) == RootIdentity(ls)
  {
    if ls != [] {
      assert SetModel(ls, v)[1..] == SetModel(ls[1..], v);
      if KeyOf(ls[0]) == Some("model") {
        ModelLineSaysNothing(ls[0], v);
      }
      ModelIsNoIdentity(ls[1..], v);
    }
  }

  lemma FragmentIdentity(f: Fragment)
    requires f.Valid()
    ensures IdentityOf(Doc(f.AllLines()))
      == RootIdentity(f.root) + IdentityOf(Read(None, "", Classify(FRESH, f.Tables(), false)))
  {
    FragmentReads(f);
    RootIdentityReads("", f.root);
    IdentityConcat(Read(None, "", Classify(FRESH, f.root, false)), Read(None, "", Classify(FRESH, f.Tables(), false)));
  }

  lemma ChosenIdentity(existing: seq<Line>, f: Fragment, allowed: seq<string>)
    requires f.Valid()
    ensures IdentityOf(Doc(Chosen(f, existing, allowed).AllLines())) == IdentityOf(Doc(f.AllLines()))
  {
    ChosenValid(f, existing, allowed);
    FragmentIdentity(f);
    FragmentIdentity(Chosen(f, existing, allowed));
    var m := KeptModel(existing, allowed);
    if m.Some? {
      ModelIsNoIdentity(f.root, m.value);
    }
  }

  lemma DocIdentity(ls: seq<Line>)
    requires Closes(ls)
    ensures Identity(None, Scan(ls)) == IdentityOf(Doc(ls))
  {
    IdentityReads(FRESH, None, "", ls);
  }

  lemma MergedCloses(existing: seq<Line>, f: Fragment, allowed: seq<string>)
    requires Whole(existing) && Closes(existing) && f.Valid()
    ensures Closes(Merge(existing, f, allowed))
  {
    KeptScansTheSame(FRESH, AT_ROOT, existing);
    MergedFile(existing, f, allowed);
  }

  /** The merged file has the identity of the fragment, whatever model was kept. */
  lemma MergedIdentity(existing: seq<Line>, f: Fragment, allowed: seq<string>)
    requires Whole(existing) && Closes(existing) && f.Valid()
    ensures Identity(None, Scan(Merge(existing, f, allowed))) == Identity(None, Scan(f.AllLines()))
  {
    var merged := Merge(existing, f, allowed);
    MergedCloses(existing, f, allowed);
    DocIdentity(merged);
    MergeMeaning(existing, f, allowed);
    ReadHeads(None, "", Scan(merged));
    IdentityIsOurs(Doc(merged));
    ChosenIdentity(existing, f, allowed);
    FragmentCloses(f);
    DocIdentity(f.AllLines());
  }

  // ---- the identity of a fragment, in its own words ----

  /** The lines that say something, trimmed. */
  function Telling(ls: seq<Line>): seq<Line> {
    if ls == [] then [] else (if Filler(ls[0]) then [] else [TrimSpace(ls[0])]) + Telling(ls[1..])
  }

  /** The root lines that name the provider. */
  function Providers(ls: seq<Line>): seq<Line> {
    if ls == [] then [] else (if KeyOf(ls[0]) == Some("model_provider") then [ls[0]] else []) + Providers(ls[1..])
  }

  lemma JoinCons(l: Line, ls: seq<Line>)
    ensures Join([l] + ls) == l + "\n" + Join(ls)
  {
    assert ([l] + ls)[1..] == ls;
  }

  lemma {:induction false} ProvidersTell(ls: seq<Line>)
    requires forall l :: l in ls ==> RootLine(l)
    ensures RootIdentity(ls) == Join(Telling(Providers(ls)))
  {
    if ls != [] {
      assert RootLine(ls[0]) by {
        assert ls[0] in ls;
      }
      ManagedKeyIsNotFiller(ls[0]);
      ProvidersTell(ls[1..]);
      if KeyOf(ls[0]) == Some("model_provider") {
        assert ([ls[0]] + Providers(ls[1..]))[1..] == Providers(ls[1..]);
        JoinCons(TrimSpace(ls[0]), Telling(Providers(ls[1..])));
      } else {
        assert Providers(ls) == Providers(ls[1..]);
      }
    }
  }

  lemma {:induction false} TableTells(st: ScanState, head: Line, ls: seq<Line>)
    requires NoHeader(Classify(st, ls, false))
    ensures IdentityOf(Read(Some(MANAGED_TABLE), head, Classify(st, ls, false))) == Join(Telling(ls))
    decreases |ls|
  {
    if ls != [] {
      var cs, st' := Classify(st, ls, false), NextState(st, ls[0], false);
      ClassifyFirst(st, ls, false);
      assert cs[1..] == Classify(st', ls[1..], false);
      assert forall i :: 0 <= i < |cs[1..]| ==> cs[1..][i] == cs[i + 1];
      TableTells(st', NextHead(head, cs[0]), ls[1..]);
      IdentityConcat(LineEntries(Some(MANAGED_TABLE), head, cs[0]),
        Read(Some(MANAGED_TABLE), NextHead(head, cs[0]), cs[1..]));
      OneTells(head, cs[0]);
      if Filler(ls[0]) {
        assert Telling(ls) == Telling(ls[1..]);
      } else {
        JoinCons(TrimSpace(ls[0]), Telling(ls[1..]));
      }
    }
  }

  lemma OneTells(head: Line, c: TomlLine)
    requires !c.isHeader
    ensures IdentityOf(LineEntries(Some(MANAGED_TABLE), head, c))
      == if Filler(c.text) then [] else TrimSpace(c.text) + "\n"
  {
    var es := LineEntries(Some(MANAGED_TABLE), head, c);
    if es != [] {
      assert es[1..] == [];
      assert IdentityOf([]) == [];
    }
  }

  /** The identity of a fragment is its provider line and its table, line by line,
      without blanks and comments: nothing else, and nothing less. */
  lemma FragmentTells(f: Fragment)
    requires f.Valid()
    ensures Identity(None, Scan(f.AllLines()))
      == Join(Telling(Providers(f.root)) + ([TrimSpace(f.header)] + Telling(f.body)))
  {
    var b := Classify(FRESH, f.body, false);
    FragmentCloses(f);
    DocIdentity(f.AllLines());
    FragmentIdentity(f);
    ProvidersTell(f.root);
    TablesRead(f, None, "");
    TablesScan(f, FRESH, false);
    TableTells(FRESH, f.header, f.body);
    HeaderTells(f, Read(Some(MANAGED_TABLE), f.header, b));
    JoinCons(TrimSpace(f.header), Telling(f.body));
    JoinConcat(Telling(Providers(f.root)), [TrimSpace(f.header)] + Telling(f.body));
  }

  lemma HeaderTells(f: Fragment, es: seq<Entry>)
    requires f.Valid()
    ensures IdentityOf([Entry(Some(MANAGED_TABLE), f.header, f.header, true)] + es)
      == TrimSpace(f.header) + "\n" + IdentityOf(es)
  {
    HeaderIsNotFiller(f.header);
    assert ([Entry(Some(MANAGED_TABLE), f.header, f.header, true)] + es)[1..] == es;
  }
}
