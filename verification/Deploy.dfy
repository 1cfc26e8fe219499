/** Delivery of an archive into an employee's profile (WriteToProfileReport), and
    what it reports when it is delivered again. */
module Deploy {
  import opened Text
  import opened TomlScan
  import opened TomlStrip
  import opened TomlStability
  import opened TomlAssembly
  import opened TomlMerge
  import opened TomlIdentity
  import opened TomlReturns
  import opened TomlFile
  import opened GatewayConfig

  /** An archive entry: one of the three with a place in the profile
      (profileTargets), or any other path. */
  datatype Path = CodexAuth | CodexConfig | CodexModels | Unrecognised(name: string)

  const TARGETS: set<Path> := {CodexAuth, CodexConfig, CodexModels}

  type Files = map<Path, string>

  /** placed stands for the hashes of what was written. */
  datatype Report = Report(
    written: nat, skipped: set<Path>, placed: Files, merged: set<Path>,
    changed: set<Path>, credentialChanged: bool)

  function Previous(disk: Files, entry: Path): Option<string> {
    if entry in disk then Some(disk[entry]) else None
  }

  /** What a delivery puts in place of one entry. */
  function Payload(entry: Path, previous: Option<string>, data: string, allowed: seq<string>): string {
    if entry == CodexConfig then MergeText(previous, data, allowed) else data
  }

  /** The delivery moves where requests go or with which token. Nothing readable
      on disk counts as empty. */
  predicate Moves(entry: Path, previous: Option<string>, payload: string) {
    entry == CodexConfig && IdentityText(if previous.Some? then previous.value else "") != IdentityText(payload)
  }

  /** What each recognised entry of an archive becomes on this disk. */
  function Wanted(disk: Files, archive: Files, allowed: seq<string>): (want: Files)
    ensures want.Keys == archive.Keys * TARGETS
  {
    map e | e in archive.Keys * TARGETS :: Payload(e, Previous(disk, e), archive[e], allowed)
  }

  predicate Moved(disk: Files, want: Files) {
    CodexConfig in want && Moves(CodexConfig, Previous(disk, CodexConfig), want[CodexConfig])
  }

  /** The disk once the entries in done are in place. */
  function Delivered(disk: Files, want: Files, done: set<Path>): Files
    requires done <= want.Keys
  {
    map e | e in disk.Keys + done :: if e in done then want[e] else disk[e]
  }

  lemma NothingYet(disk: Files, want: Files, moved: bool)
    ensures Delivered(disk, want, {}) == disk
    ensures Reported(disk, want, moved, {}, {}) == Report(0, {}, map[], {}, {}, false)
  {}

  /** The entries whose bytes on disk are not what they are to be. */
  function Changes(disk: Files, want: Files, done: set<Path>): set<Path>
    requires done <= want.Keys
  {
    set e | e in done && Previous(disk, e) != Some(want[e])
  }

  function Placed(want: Files, done: set<Path>): Files
    requires done <= want.Keys
  {
    map e | e in done && e != CodexConfig :: want[e]
  }

  /** What is reported once done are in place and skipped have been passed over. */
  function Reported(disk: Files, want: Files, moved: bool, done: set<Path>, skipped: set<Path>): Report
    requires done <= want.Keys
  {
    Report(
      |done|, skipped, Placed(want, done), done * {CodexConfig},
      Changes(disk, want, done), moved && CodexConfig in done)
  }

  /** What is reported when an entry cannot be placed: what is in place, some of the
      entries to pass over, and a new identity when one is in place or was refused. */
  predicate Interrupted(disk: Files, want: Files, done: set<Path>, others: set<Path>, rep: Report)
    requires done <= want.Keys
  {
    && rep.skipped <= others
    && rep == Reported(disk, want, Moved(disk, want), done, rep.skipped).(credentialChanged := rep.credentialChanged)
    && (Moved(disk, want) && CodexConfig in done ==> rep.credentialChanged)
    && (rep.credentialChanged ==> Moved(disk, want))
  }

  /** One more entry in the report. */
  function Noted(rep: Report, entry: Path, changed: bool, moved: bool, payload: string): Report {
    Report(
      rep.written + 1, rep.skipped,
      if entry == CodexConfig then rep.placed else rep.placed[entry := payload],
      if entry == CodexConfig then rep.merged + {entry} else rep.merged,
      if changed then rep.changed + {entry} else rep.changed,
      rep.credentialChanged || moved)
  }

  lemma PlacedStep(want: Files, done: set<Path>, entry: Path)
    requires done <= want.Keys && entry in want && entry !in done
    ensures Placed(want, done + {entry})
            == if entry == CodexConfig then Placed(want, done) else Placed(want, done)[entry := want[entry]]
  {}

  lemma ChangesStep(disk: Files, want: Files, done: set<Path>, entry: Path)
    requires done <= want.Keys && entry in want && entry !in done
    ensures Changes(disk, want, done + {entry})
            == Changes(disk, want, done) + if Previous(disk, entry) != Some(want[entry]) then {entry} else {}
  {}

  lemma DoneStep(done: set<Path>, entry: Path)
    requires entry !in done
    ensures |done + {entry}| == |done| + 1
    ensures (done + {entry}) * {CodexConfig} == if entry == CodexConfig then done * {CodexConfig} + {entry}
      else done * {CodexConfig}
    ensures CodexConfig in done + {entry} <==> CodexConfig in done || entry == CodexConfig
  {}

  lemma ReportedStep(disk: Files, want: Files, moved: bool, done: set<Path>, skipped: set<Path>, entry: Path)
    requires done <= want.Keys && entry in want && entry !in done
    ensures Reported(disk, want, moved, done + {entry}, skipped)
            == Noted(Reported(disk, want, moved, done, skipped), entry, Previous(disk, entry) != Some(want[entry]),
                     moved && entry == CodexConfig, want[entry])
  {
    PlacedStep(want, done, entry);
    ChangesStep(disk, want, done, entry);
    DoneStep(done, entry);
    NotedFields(Reported(disk, want, moved, done, skipped), Reported(disk, want, moved, done + {entry}, skipped), entry,
      Previous(disk, entry) != Some(want[entry]), moved && entry == CodexConfig, want[entry]);
  }

  lemma NotedFields(rep: Report, after: Report, entry: Path, changed: bool, moved: bool, payload: string)
    requires after.written == rep.written + 1 && after.skipped == rep.skipped
    requires after.placed == if entry == CodexConfig then rep.placed else rep.placed[entry := payload]
    requires after.merged == if entry == CodexConfig then rep.merged + {entry} else rep.merged
    requires after.changed == rep.changed + if changed then {entry} else {}
    requires after.credentialChanged == (rep.credentialChanged || moved)
    ensures after == Noted(rep, entry, changed, moved, payload)
  {
    assert rep.changed + {} == rep.changed;
  }

  lemma DeliveredStep(disk: Files, want: Files, done: set<Path>, entry: Path)
    requires done <= want.Keys && entry in want && entry !in done
    ensures Delivered(disk, want, done + {entry}) == Delivered(disk, want, done)[entry := want[entry]]
    ensures Previous(Delivered(disk, want, done), entry) == Previous(disk, entry)
  {}

  lemma TakeOne(all: set<Path>, todo: set<Path>, entry: Path)
    requires todo <= all && entry in todo
    ensures entry in TARGETS ==> all * TARGETS - (todo - {entry}) == (all * TARGETS - todo) + {entry}
    ensures entry in TARGETS ==> (all - (todo - {entry})) - TARGETS == (all - todo) - TARGETS
    ensures entry !in TARGETS ==> all * TARGETS - (todo - {entry}) == all * TARGETS - todo
    ensures entry !in TARGETS ==> (all - (todo - {entry})) - TARGETS == (all - todo) - TARGETS + {entry}
  {}

  /** How far a delivery has come when todo is left. */
  ghost predicate Progress(start: Files, want: Files, all: set<Path>, todo: set<Path>, done: set<Path>, disk: Files,
    rep: Report) {
    && todo <= all && want.Keys == all * TARGETS && done == want.Keys - todo
    && disk == Delivered(start, want, done)
    && rep == Reported(start, want, Moved(start, want), done, (all - todo) - TARGETS)
  }

  lemma ProgressStart(start: Files, want: Files, all: set<Path>)
    requires want.Keys == all * TARGETS
    ensures Progress(start, want, all, all, {}, start, Report(0, {}, map[], {}, {}, false))
  {
    NothingYet(start, want, Moved(start, want));
    assert all - all == {} && {} - TARGETS == {};
  }

  lemma ProgressEnd(start: Files, want: Files, all: set<Path>, done: set<Path>, disk: Files, rep: Report)
    requires Progress(start, want, all, {}, done, disk, rep)
    ensures done == want.Keys && disk == Delivered(start, want, done)
    ensures rep == Reported(start, want, Moved(start, want), done, all - TARGETS)
  {
    assert all - {} == all && want.Keys - {} == want.Keys;
  }

  lemma ProgressPlaced(start: Files, want: Files, all: set<Path>, todo: set<Path>, done: set<Path>, entry: Path,
    disk: Files, rep: Report)
    requires todo <= all && want.Keys == all * TARGETS && done == want.Keys - todo && entry in todo && entry in TARGETS
    requires disk == Delivered(start, want, done + {entry})
    requires rep == Reported(start, want, Moved(start, want), done + {entry}, (all - todo) - TARGETS)
    ensures Progress(start, want, all, todo - {entry}, done + {entry}, disk, rep)
  {
    TakeOne(all, todo, entry);
  }

  lemma ProgressSkipped(start: Files, want: Files, all: set<Path>, todo: set<Path>, done: set<Path>, entry: Path,
    disk: Files, rep: Report)
    requires Progress(start, want, all, todo, done, disk, rep) && entry in todo && entry !in TARGETS
    ensures Progress(start, want, all, todo - {entry}, done, disk, rep.(skipped := rep.skipped + {entry}))
  {
    TakeOne(all, todo, entry);
  }

  class Profile {
    var disk: Files

    constructor (disk: Files)
      ensures this.disk == disk
    {
      this.disk := disk;
    }

    /** What to write for one recognised entry, and whether it moves the identity. */
    method Prepare(entry: Path, data: string, allowed: seq<string>) returns (payload: string, moved: bool)
      ensures payload == Payload(entry, Previous(disk, entry), data, allowed)
      ensures moved == Moves(entry, Previous(disk, entry), payload)
    {
      payload, moved := data, false;
      if entry == CodexConfig {
        var previous := Previous(disk, entry);
        payload := MergeCodexConfigKeeping(previous, data, allowed);
        var before := GatewayIdentity(if previous.Some? then previous.value else "");
        var after := GatewayIdentity(payload);
        moved := before != after;
      }
    }

    /** Places one recognised entry, writing only when its bytes are not there yet. */
    method Place(entry: Path, payload: string, moved: bool, noWrite: set<Path>, rep: Report)
      returns (after: Report, ok: bool)
      requires moved ==> entry == CodexConfig
      modifies this
      ensures ok ==> disk == old(disk)[entry := payload]
      ensures ok ==> after == Noted(rep, entry, Previous(old(disk), entry) != Some(payload), moved, payload)
      ensures !ok ==> disk == old(disk) && after == rep.(credentialChanged := rep.credentialChanged || moved)
      ensures entry !in noWrite ==> ok
    {
      after := rep;
      if moved {
        after := after.(credentialChanged := true);
      }
      if Previous(disk, entry) != Some(payload) {
        if entry in noWrite {
          return after, false;
        }
        disk := disk[entry := payload];
        after := after.(changed := after.changed + {entry});
      }
      if entry == CodexConfig {
        after := after.(merged := after.merged + {entry});
      } else {
        after := after.(placed := after.placed[entry := payload]);
      }
      after := after.(written := after.written + 1);
      ok := true;
    }

    /** Delivers one recognised entry, given that done are in place already. */
    method DeliverOne(entry: Path, data: string, allowed: seq<string>, noDir: set<Path>, noWrite: set<Path>,
                      rep: Report, ghost start: Files, ghost want: Files, ghost done: set<Path>,
                        ghost skipped: set<Path>)
      returns (after: Report, ok: bool)
      requires entry in want && done <= want.Keys && entry !in done
      requires want[entry] == Payload(entry, Previous(start, entry), data, allowed)
      requires disk == Delivered(start, want, done) && rep == Reported(start, want, Moved(start, want), done, skipped)
      modifies this
      ensures ok ==> disk == Delivered(start, want, done + {entry})
                     && after == Reported(start, want, Moved(start, want), done + {entry}, skipped)
      ensures !ok ==> disk == old(disk) && after == rep.(credentialChanged := after.credentialChanged)
      ensures !ok && after.credentialChanged ==> rep.credentialChanged || Moved(start, want)
      ensures !ok && rep.credentialChanged ==> after.credentialChanged
      ensures entry !in noDir + noWrite ==> ok
    {
      if entry in noDir {
        return rep, false;
      }
      DeliveredStep(start, want, done, entry);
      ReportedStep(start, want, Moved(start, want), done, skipped, entry);
      var payload, moved := Prepare(entry, data, allowed);
      assert moved == (Moved(start, want) && entry == CodexConfig);
      after, ok := Place(entry, payload, moved, noWrite, rep);
    }

    /** Delivers the entries one by one, in any order. noDir are the entries whose
        directory cannot be made, noWrite those whose file cannot be written. */
    method WriteToProfileReport(archive: Files, allowed: seq<string>, noDir: set<Path>, noWrite: set<Path>)
      returns (rep: Report, ok: bool, ghost done: set<Path>)
      modifies this
      ensures var want := Wanted(old(disk), archive, allowed);
        && done <= want.Keys && disk == Delivered(old(disk), want, done)
        && (ok ==> done == want.Keys
                   && rep == Reported(old(disk), want, Moved(old(disk), want), done, archive.Keys - TARGETS))
        && (!ok ==> Interrupted(old(disk), want, done, archive.Keys - TARGETS, rep))
      ensures (forall e :: e in archive && e in TARGETS ==> e !in noDir + noWrite) ==> ok
    {
      ghost var want := Wanted(disk, archive, allowed);
      rep, ok, done := DeliverAll(archive, allowed, noDir, noWrite, disk, want);
    }

    method DeliverAll(archive: Files, allowed: seq<string>, noDir: set<Path>, noWrite: set<Path>,
                      ghost start: Files, ghost want: Files)
      returns (rep: Report, ok: bool, ghost done: set<Path>)
      requires disk == start && want.Keys == archive.Keys * TARGETS
      requires forall e :: e in want ==> want[e] == Payload(e, Previous(start, e), archive[e], allowed)
      modifies this
      ensures done <= want.Keys && disk == Delivered(start, want, done)
      ensures ok ==> done == want.Keys && rep == Reported(start, want, Moved(start, want), done, archive.Keys - TARGETS)
      ensures !ok ==> Interrupted(start, want, done, archive.Keys - TARGETS, rep)
      ensures (forall e :: e in want ==> e !in noDir + noWrite) ==> ok
    {
      rep := Report(0, {}, map[], {}, {}, false);
      done := {};
      ok := true;
      var todo := archive.Keys;
      ProgressStart(start, want, archive.Keys);
      while todo != {}
        invariant Progress(start, want, archive.Keys, todo, done, disk, rep)
        decreases todo
      {
        var entry :| entry in todo;
        if entry in TARGETS {
          rep, ok := DeliverOne(entry, archive[entry], allowed, noDir, noWrite, rep, start, want, done,
                                (archive.Keys - todo) - TARGETS);
          if !ok {
            return;
          }
          ProgressPlaced(start, want, archive.Keys, todo, done, entry, disk, rep);
          done := done + {entry};
        } else {
          ProgressSkipped(start, want, archive.Keys, todo, done, entry, disk, rep);
          rep := rep.(skipped := rep.skipped + {entry});
        }
        todo := todo - {entry};
      }
      ok := true;
      ProgressEnd(start, want, archive.Keys, done, disk, rep);
    }
  }

  // ---- the same archive again ----

  /** The config.toml in the archive is a delivered fragment, and the one on disk, if
      any, can take it. */
  ghost predicate Deliverable(disk: Files, archive: Files, f: Fragment) {
    && f.Valid() && Canonical(f) && CleanLines(f.AllLines())
    && (CodexConfig in archive ==> archive[CodexConfig] == Join(f.AllLines()))
    && (CodexConfig in disk ==> Mergeable(disk[CodexConfig], f))
  }

  /** A config.toml that is merged into is merged into again with the same result. */
  predicate Repeatable(disk: Files, archive: Files, allowed: seq<string>, f: Fragment) {
    CodexConfig in disk && CodexConfig in archive ==> Repeats(disk[CodexConfig], f, allowed)
  }

  lemma ConfigTwice(disk: Files, archive: Files, allowed: seq<string>, f: Fragment)
    requires Deliverable(disk, archive, f) && CodexConfig in archive
    ensures var once := MergeText(Previous(disk, CodexConfig), archive[CodexConfig], allowed);
      MergeText(Some(once), archive[CodexConfig], allowed) == once <==> Repeatable(disk, archive, allowed, f)
  {
    if CodexConfig in disk {
      RedeliveryOfContents(disk[CodexConfig], f, allowed);
    } else {
      FragmentTwice(f, allowed);
    }
  }

  lemma DifferAtConfig(a: Files, b: Files)
    requires a.Keys == b.Keys && forall e :: e in a && e != CodexConfig ==> a[e] == b[e]
    ensures a == b <==> (CodexConfig in a ==> a[CodexConfig] == b[CodexConfig])
  {}

  lemma InPlace(disk: Files, want: Files)
    ensures forall e :: e in want ==> Previous(Delivered(disk, want, want.Keys), e) == Some(want[e])
  {}

  lemma WantedAt(disk: Files, archive: Files, allowed: seq<string>, e: Path)
    requires e in archive && e in TARGETS
    ensures Wanted(disk, archive, allowed)[e] == Payload(e, Previous(disk, e), archive[e], allowed)
  {}

  lemma WantedAgain(disk: Files, after: Files, archive: Files, allowed: seq<string>, f: Fragment)
    requires Deliverable(disk, archive, f)
    requires forall e :: e in Wanted(disk, archive, allowed) ==>
      Previous(after, e) == Some(Wanted(disk, archive, allowed)[e])
    ensures Wanted(after, archive, allowed) == Wanted(disk, archive, allowed) <==> Repeatable(disk, archive, allowed, f)
  {
    var want, again := Wanted(disk, archive, allowed), Wanted(after, archive, allowed);
    forall e | e in want && e != CodexConfig
      ensures want[e] == again[e]
    {
      WantedAt(disk, archive, allowed, e);
      WantedAt(after, archive, allowed, e);
    }
    DifferAtConfig(again, want);
    if CodexConfig in archive {
      WantedAt(disk, archive, allowed, CodexConfig);
      WantedAt(after, archive, allowed, CodexConfig);
      ConfigTwice(disk, archive, allowed, f);
    }
  }

  /** A delivery that puts back what is there leaves the disk alone, and one that
      does not shows it. */
  lemma NothingMoves(disk: Files, want: Files, again: Files)
    requires forall e :: e in want ==> Previous(disk, e) == Some(want[e])
    requires again.Keys == want.Keys
    ensures again == want ==> Delivered(disk, again, again.Keys) == disk && !Moved(disk, again)
    ensures Changes(disk, again, again.Keys) == {} <==> again == want
  {
    if Changes(disk, again, again.Keys) == {} {
      forall e | e in want
        ensures again[e] == want[e]
      {
        assert e !in Changes(disk, again, again.Keys);
      }
    }
  }

  /** When a second delivery of the same archive changes no file and reports no
      change, so that nothing is written and no running tool is stopped for it. */
  lemma RedeliveryIsSilent(disk: Files, archive: Files, allowed: seq<string>, f: Fragment)
    requires Deliverable(disk, archive, f)
    ensures var want := Wanted(disk, archive, allowed);
      var after := Delivered(disk, want, want.Keys);
      var again := Wanted(after, archive, allowed);
      && (Changes(after, again, again.Keys) == {} <==> Repeatable(disk, archive, allowed, f))
      && (Repeatable(disk, archive, allowed, f)
        ==> Delivered(after, again, again.Keys) == after && !Moved(after, again))
  {
    var want := Wanted(disk, archive, allowed);
    var after := Delivered(disk, want, want.Keys);
    InPlace(disk, want);
    WantedAgain(disk, after, archive, allowed, f);
    NothingMoves(after, want, Wanted(after, archive, allowed));
  }

  /** For an archive with the config.toml that the console renders. */
  lemma RenderedIsSilent(
    disk: Files, archive: Files, baseURL: string, windowsUser: string, allowed: seq<string>, token: string)
    requires Renderable(windowsUser)
    requires CodexConfig in archive && archive[CodexConfig] == RenderGatewayConfig(baseURL, windowsUser, allowed, token)
    requires CodexConfig in disk ==> Receives(disk[CodexConfig], baseURL, token)
    ensures var want := Wanted(disk, archive, allowed);
      var after := Delivered(disk, want, want.Keys);
      var again := Wanted(after, archive, allowed);
      Changes(after, again, again.Keys) == {}
      <==> Repeatable(disk, archive, allowed, Rendered(baseURL, windowsUser, allowed, token))
  {
    RenderedIsValid(baseURL, windowsUser, allowed, token);
    RenderedIsCanonical(baseURL, windowsUser, allowed, token);
    RenderedIsClean(baseURL, windowsUser, allowed, token);
    if CodexConfig in disk {
      RenderedIsMergeable(disk[CodexConfig], baseURL, windowsUser, allowed, token);
    }
    RedeliveryIsSilent(disk, archive, allowed, Rendered(baseURL, windowsUser, allowed, token));
  }

  // ---- a new credential ----

  /** The identity that a delivery leaves: the fragment's, unless the kept model makes
      a line that cannot be scanned. */
  function IdentityLeft(text: string, f: Fragment, allowed: seq<string>): string {
    var f1 := Chosen(f, ReadBack(text), allowed);
    if Scannable(text) && Fits(f.AllLines()) && !Fits(f1.AllLines()) then Join(f1.AllLines())
    else IdentityText(Join(f.AllLines()))
  }

  lemma IdentityOfLines(ls: seq<Line>)
    requires OneLiners(ls) && Fits(ls)
    ensures IdentityText(Join(ls)) == Identity(None, Scan(ls))
  {
    JoinScannable(ls);
    JoinThenRead(ls);
    ScanDropped(ls);
    IdentityDropped(None, Scan(ls));
  }

  lemma IdentityOfMerged(text: string, f: Fragment, allowed: seq<string>)
    requires f.Valid() && CleanLines(f.AllLines())
    requires Scannable(text) ==> Whole(ReadBack(text)) && Closes(ReadBack(text))
    ensures IdentityText(MergeText(Some(text), Join(f.AllLines()), allowed)) == IdentityLeft(text, f, allowed)
  {
    MergeTextIsMerge(text, f, allowed);
    ChosenClean(f, ReadBack(text), allowed);
    FragmentScannable(f);
    FragmentScannable(Chosen(f, ReadBack(text), allowed));
    if Scannable(text) && Fits(f.AllLines()) && Fits(Chosen(f, ReadBack(text), allowed).AllLines()) {
      IdentityOfScanned(text, f, allowed);
    }
  }

  lemma IdentityOfScanned(text: string, f: Fragment, allowed: seq<string>)
    requires f.Valid() && CleanLines(f.AllLines()) && Scannable(text)
    requires Fits(f.AllLines()) && Fits(Chosen(f, ReadBack(text), allowed).AllLines())
    requires Whole(ReadBack(text)) && Closes(ReadBack(text))
    ensures IdentityText(Join(Merge(ReadBack(text), f, allowed))) == IdentityText(Join(f.AllLines()))
  {
    var ls := ReadBack(text);
    ReadBackFits(text);
    MergedFits(ls, f, allowed);
    MergedOneLiners(ls, f, allowed);
    IdentityOfLines(Merge(ls, f, allowed));
    assert forall l :: l in f.AllLines() ==> Clean(l);
    IdentityOfLines(f.AllLines());
    MergedIdentity(ls, f, allowed);
  }

  /** The identity on disk, or of an empty file when there is none, moves exactly when
      it differs from the delivered one: the model kept and the catalog have no say. */
  lemma CredentialChangedIff(disk: Files, archive: Files, allowed: seq<string>, f: Fragment)
    requires f.Valid() && CleanLines(f.AllLines())
    requires CodexConfig in archive && archive[CodexConfig] == Join(f.AllLines())
    requires CodexConfig in disk && Scannable(disk[CodexConfig]) ==>
      var ls := ReadBack(disk[CodexConfig]); Whole(ls) && Closes(ls)
    ensures Moved(disk, Wanted(disk, archive, allowed))
      <==> if CodexConfig in disk then IdentityText(disk[CodexConfig]) != IdentityLeft(disk[CodexConfig], f, allowed)
           else IdentityText("") != IdentityText(Join(f.AllLines()))
  {
    if CodexConfig in disk {
      IdentityOfMerged(disk[CodexConfig], f, allowed);
    }
  }

  /** A delivery over a file that carries one rendered identity moves it exactly when the
      token or the base URL is another one: a new token is never taken for the old. */
  lemma NewTokenMoves(
    disk: Files, archive: Files, allowed: seq<string>,
    u: string, w: string, a: seq<string>, t: string, u': string, w': string, a': seq<string>, t': string)
    requires Renderable(w) && Fits(Rendered(u, w, a, t).AllLines())
    requires Renderable(w') && Fits(Rendered(u', w', a', t').AllLines())
    requires CodexConfig in archive && archive[CodexConfig] == RenderGatewayConfig(u', w', a', t')
    requires CodexConfig in disk && Scannable(disk[CodexConfig])
    requires var ls := ReadBack(disk[CodexConfig]);
      Whole(ls) && Closes(ls) && Fits(Chosen(Rendered(u', w', a', t'), ls, allowed).AllLines())
    requires IdentityText(disk[CodexConfig]) == IdentityText(RenderGatewayConfig(u, w, a, t))
    ensures Moved(disk, Wanted(disk, archive, allowed)) <==> TrimSlashes(u) != TrimSlashes(u') || t != t'
  {
    RenderedIsValid(u', w', a', t');
    RenderedIsClean(u', w', a', t');
    CredentialChangedIff(disk, archive, allowed, Rendered(u', w', a', t'));
    SameIdentity(u, w, a, t, u', w', a', t');
  }

  /** In particular over what the first delivery left of an employee's file that closes
      and lasts. */
  lemma SecondTokenMoves(
    existing: string, disk: Files, archive: Files, allowed: seq<string>,
    u: string, w: string, a: seq<string>, t: string, u': string, w': string, a': seq<string>, t': string)
    requires Renderable(w) && Fits(Rendered(u, w, a, t).AllLines())
    requires Renderable(w') && Fits(Rendered(u', w', a', t').AllLines())
    requires CodexConfig in archive && archive[CodexConfig] == RenderGatewayConfig(u', w', a', t')
    requires Scannable(existing) && CleanLines(Lines(existing))
    requires Steady(Lines(existing)) && Closes(Lines(existing))
    requires Fits(Chosen(Rendered(u, w, a, t), Lines(existing), allowed).AllLines())
    requires var once := MergeText(Some(existing), RenderGatewayConfig(u, w, a, t), allowed);
      && CodexConfig in disk && disk[CodexConfig] == once
      && Fits(Chosen(Rendered(u', w', a', t'), ReadBack(once), allowed).AllLines())
    ensures Moved(disk, Wanted(disk, archive, allowed)) <==> TrimSlashes(u) != TrimSlashes(u') || t != t'
  {
    var f, ls := Rendered(u, w, a, t), Lines(existing);
    RenderedIsValid(u, w, a, t);
    RenderedIsClean(u, w, a, t);
    NothingToDrop(ls);
    IdentityOfMerged(existing, f, allowed);
    MergeTextIsMerge(existing, f, allowed);
    MergedStays(existing, f, allowed);
    NewTokenMoves(disk, archive, allowed, u, w, a, t, u', w', a', t');
  }

  /** What a merge writes over clean lines is read back as those lines, and is as whole. */
  lemma MergedStays(existing: string, f: Fragment, allowed: seq<string>)
    requires f.Valid() && CleanLines(f.AllLines()) && Fits(f.AllLines())
    requires Scannable(existing) && CleanLines(Lines(existing))
    requires Steady(Lines(existing)) && Closes(Lines(existing))
    requires Fits(Chosen(f, Lines(existing), allowed).AllLines())
    ensures var once := Join(Merge(Lines(existing), f, allowed));
      Scannable(once) && Whole(ReadBack(once)) && Closes(ReadBack(once))
  {
    var ls := Lines(existing);
    var merged := Merge(ls, f, allowed);
    NothingToDrop(ls);
    ReadBackFits(existing);
    MergedFits(ls, f, allowed);
    MergedMembers(ls, f, allowed);
    MergedOneLiners(ls, f, allowed);
    JoinScannable(merged);
    CleanRoundTrip(merged);
    NothingToDrop(merged);
    KeptScansTheSame(FRESH, AT_ROOT, ls);
    MergedIsSteady(ls, f, allowed);
    MergedFile(ls, f, allowed);
  }

  // ---- what a complete delivery leaves ----

  /** The sign-in and the catalog are on disk as delivered, byte for byte; config.toml is
      the merge; and nothing else on the disk is touched, recognised or not. */
  lemma DeliveryLeaves(disk: Files, archive: Files, allowed: seq<string>)
    ensures var want := Wanted(disk, archive, allowed);
      var after := Delivered(disk, want, want.Keys);
      && (CodexAuth in archive ==> CodexAuth in after && after[CodexAuth] == archive[CodexAuth])
      && (CodexModels in archive ==> CodexModels in after && after[CodexModels] == archive[CodexModels])
      && (CodexConfig in archive ==>
            var before := if CodexConfig in disk then Some(disk[CodexConfig]) else None;
            CodexConfig in after && after[CodexConfig] == MergeText(before, archive[CodexConfig], allowed))
      && (forall e: Path :: e !in archive || e.Unrecognised? ==> (e in after <==> e in disk))
      && (forall e: Path :: (e !in archive || e.Unrecognised?) && e in disk ==> after[e] == disk[e])
  {
    var want := Wanted(disk, archive, allowed);
    forall e | e in archive && e in TARGETS
      ensures e in want && want[e] == Payload(e, Previous(disk, e), archive[e], allowed)
    {
      WantedAt(disk, archive, allowed, e);
    }
    assert forall e: Path :: e.Unrecognised? ==> e !in want;
  }

  /** The report of a complete delivery. */
  function CompleteReport(disk: Files, archive: Files, allowed: seq<string>): Report {
    var want := Wanted(disk, archive, allowed);
    Reported(disk, want, Moved(disk, want), want.Keys, archive.Keys - TARGETS)
  }

  /** It counts what was recognised and names what was not. */
  lemma ReportCounts(disk: Files, archive: Files, allowed: seq<string>)
    ensures var rep := CompleteReport(disk, archive, allowed);
      && rep.written == |archive.Keys * {CodexAuth, CodexConfig, CodexModels}|
      && (forall e: Path :: e in rep.skipped <==> e in archive && e.Unrecognised?)
      && (forall e :: e in rep.merged <==> e == CodexConfig && e in archive)
  {}

  /** It lists what was placed as delivered. */
  lemma ReportPlaces(disk: Files, archive: Files, allowed: seq<string>)
    ensures var rep := CompleteReport(disk, archive, allowed);
      && (forall e :: e in rep.placed <==> e in archive && (e == CodexAuth || e == CodexModels))
      && (forall e :: e in rep.placed ==> rep.placed[e] == archive[e])
  {}

  /** It lists as changed exactly the files that are now different. */
  lemma ReportChanges(disk: Files, archive: Files, allowed: seq<string>)
    ensures var want := Wanted(disk, archive, allowed);
      var after := Delivered(disk, want, want.Keys);
      forall e :: e in CompleteReport(disk, archive, allowed).changed
        <==> e in after && (e !in disk || disk[e] != after[e])
  {
    var want := Wanted(disk, archive, allowed);
    var after := Delivered(disk, want, want.Keys);
    forall e | e in after
      ensures after[e] == if e in want then want[e] else disk[e]
    {}
  }

  /** And a new credential exactly when config.toml now identifies another gateway user. */
  lemma ReportMoves(disk: Files, archive: Files, allowed: seq<string>)
    ensures var want := Wanted(disk, archive, allowed);
      var after := Delivered(disk, want, want.Keys);
      CompleteReport(disk, archive, allowed).credentialChanged
      <==> CodexConfig in archive
           && IdentityText(if CodexConfig in disk then disk[CodexConfig] else "") != IdentityText(after[CodexConfig])
  {}
}
