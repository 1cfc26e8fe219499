/** One attempt per release target: the Codex update (go/internal/agentcore/codex.go)
    and the agent's own (prepareUpdate in sync.go), over cycles and crashes. */
module CodexUpdate {
  import opened Text
  import opened Decimal

  datatype Target = Target(version: string, generation: int, key: string, sha256: string)

  function TargetMarker(t: Target): string {
    t.version + "@" + Itoa(t.generation)
  }

  /** A marker of the older form names a version alone, and stands for generation zero. */
  predicate MarkerMatches(marker: string, t: Target) {
    marker == TargetMarker(t) || (t.generation == 0 && marker == t.version)
  }

  /** strings.EqualFold of hexadecimal digests. */
  predicate EqualFold(a: string, b: string) {
    Lower(a) == Lower(b)
  }

  predicate SameTarget(t: Target, t': Target) {
    t.version == t'.version && t.generation == t'.generation
  }

  // ---- the marker ----

  lemma ItoaHasNoAt(n: int)
    ensures forall i :: 0 <= i < |Itoa(n)| ==> Itoa(n)[i] != '@'
  {
    assert forall i :: 0 <= i < |Itoa(n)| ==> Itoa(n)[i] == '-' || IsDigit(Itoa(n)[i]);
  }

  lemma LastAt(v: string, a: string, v': string, a': string)
    requires v + "@" + a == v' + "@" + a'
    requires forall i :: 0 <= i < |a'| ==> a'[i] != '@'
    ensures |v| <= |v'|
  {
    var s, s' := v + "@" + a, v' + "@" + a';
    assert s[|v|] == '@';
    assert forall i :: |v'| < i < |s'| ==> s'[i] == a'[i - |v'| - 1];
  }

  /** Different targets leave different markers, whatever the version is called. */
  lemma TargetMarkerInjective(t: Target, t': Target)
    ensures TargetMarker(t) == TargetMarker(t') <==> SameTarget(t, t')
  {
    if TargetMarker(t) == TargetMarker(t') {
      var v, a, v', a' := t.version, Itoa(t.generation), t'.version, Itoa(t'.generation);
      ItoaHasNoAt(t.generation);
      ItoaHasNoAt(t'.generation);
      LastAt(v, a, v', a');
      LastAt(v', a', v, a);
      assert (v + "@" + a)[..|v|] == v && (v' + "@" + a')[..|v|] == v';
      assert (v + "@" + a)[|v| + 1..] == a && (v' + "@" + a')[|v| + 1..] == a';
      ItoaInjective(t.generation, t'.generation);
    }
  }

  /** A written marker stands for its own target, and for one version named like it. */
  lemma MatchesExactly(t: Target, t': Target)
    ensures MarkerMatches(TargetMarker(t), t')
      <==> SameTarget(t, t') || (t'.generation == 0 && t'.version == TargetMarker(t))
  {
    TargetMarkerInjective(t, t');
  }

  // ---- one cycle ----

  /** What is on disk about one product, and what happened to it. */
  datatype Agent = Agent(marker: string, log: seq<Event>)

  datatype Event = Marked(m: string) | Installed(target: Target, sum: string)

  /** Where the process dies, if it does. */
  datatype Crash = Never | BeforeMark | AfterMark | WhileInstalling

  /** What the machine and the store answer in one cycle. */
  datatype Cycle = Cycle(
    target: Target, installed: Option<string>, running: Option<bool>, stopped: bool, still: Option<bool>,
    free: Option<nat>, download: Option<string>, installs: bool, after: Option<string>, crash: Crash)

  datatype UpdateState = Idle | Deferred | Failed

  datatype Outcome = Outcome(version: string, state: UpdateState)

  datatype SelfState = NoUpdate | UpdateFailed | UpdatePending

  const INSTALL_HEADROOM: nat := 0xC000_0000

  predicate Eligible(t: Target, installed: string) {
    t.version != "" && t.key != "" && t.sha256 != "" && installed != t.version
  }

  /** Nothing runs, or what ran was closed and stays closed. */
  predicate Closed(c: Cycle) {
    c.running == Some(false) || (c.running == Some(true) && c.stopped && c.still == Some(false))
  }

  function Mark(a: Agent, t: Target): Agent {
    Agent(TargetMarker(t), a.log + [Marked(TargetMarker(t))])
  }

  /** A fetched package: marked, and run when its checksum matches. */
  function Attempt(a: Agent, t: Target, sum: string, crash: Crash): Agent {
    if crash == BeforeMark then a
    else if !EqualFold(sum, t.sha256) || crash == AfterMark then Mark(a, t)
    else Mark(a, t).(log := Mark(a, t).log + [Installed(t, sum)])
  }

  predicate Fetches(a: Agent, c: Cycle) {
    && c.installed.Some? && Eligible(c.target, c.installed.value) && !MarkerMatches(a.marker, c.target)
    && Closed(c) && (c.free.None? || c.free.value >= INSTALL_HEADROOM) && c.download.Some?
  }

  function UpdateCodex(a: Agent, c: Cycle): Agent {
    if Fetches(a, c) then Attempt(a, c.target, c.download.value, c.crash) else a
  }

  /** The agent's own binary: marked on a mismatch, and again just before it is applied. */
  function UpdateSelf(a: Agent, own: string, c: Cycle): Agent {
    if c.target.version == "" || c.target.version == own || MarkerMatches(a.marker, c.target) || c.download.None? then a
    else Attempt(a, c.target, c.download.value, c.crash)
  }

  /** The package is there, is the targeted one, and its installer succeeds. */
  predicate Succeeds(a: Agent, c: Cycle) {
    Fetches(a, c) && EqualFold(c.download.value, c.target.sha256) && c.installs
  }

  class Updater {
    var marker: string
    ghost var log: seq<Event>

    ghost function View(): Agent
      reads this
    {
      Agent(marker, log)
    }

    method WriteMarker(t: Target)
      modifies this
      ensures View() == Mark(old(View()), t)
    {
      marker := TargetMarker(t);
      log := log + [Marked(marker)];
    }

    method Run(c: Cycle) returns (o: Outcome)
      modifies this
      ensures View() == UpdateCodex(old(View()), c)
      ensures c.crash == Never ==>
        && (o.state == Idle
            <==> c.installed.None? || !Eligible(c.target, c.installed.value) || Succeeds(old(View()), c))
        && (o.state == Deferred
            <==> c.installed.Some? && Eligible(c.target, c.installed.value) && !MarkerMatches(old(marker), c.target)
                 && Closed(c) && c.free.Some? && c.free.value < INSTALL_HEADROOM)
        && (c.installed.None? ==> o.version == "")
        && (c.installed.Some? && !Succeeds(old(View()), c) ==> o.version == c.installed.value)
        && (Succeeds(old(View()), c) ==>
              o.version == if c.after.Some? && c.after.value != "" then c.after.value else c.target.version)
    {
      if c.installed.None? {
        return Outcome("", Idle);
      }
      var installed := c.installed.value;
      if !Eligible(c.target, installed) {
        return Outcome(installed, Idle);
      }
      if MarkerMatches(marker, c.target) {
        return Outcome(installed, Failed);
      }
      if c.running.None? {
        return Outcome(installed, Failed);
      } else if c.running.value {
        if !c.stopped || c.still.None? || c.still.value {
          return Outcome(installed, Failed);
        }
      }
      if c.free.Some? && c.free.value < INSTALL_HEADROOM {
        return Outcome(installed, Deferred);
      }
      if c.download.None? {
        return Outcome(installed, Failed);
      }
      if c.crash == BeforeMark {
        return Outcome(installed, Failed);
      }
      WriteMarker(c.target);
      if !EqualFold(c.download.value, c.target.sha256) || c.crash == AfterMark {
        return Outcome(installed, Failed);
      }
      log := log + [Installed(c.target, c.download.value)];
      if c.crash == WhileInstalling || !c.installs {
        return Outcome(installed, Failed);
      }
      var now := if c.after.Some? && c.after.value != "" then c.after.value else c.target.version;
      return Outcome(now, Idle);
    }

    /** The agent's own update: prepared and checked, reported, marked, then applied. */
    method RunSelf(own: string, c: Cycle) returns (state: SelfState)
      modifies this
      ensures View() == UpdateSelf(old(View()), own, c)
      ensures state == NoUpdate <==> c.target.version == "" || c.target.version == own
      ensures state == UpdatePending
        <==> c.target.version != "" && c.target.version != own && !MarkerMatches(old(marker), c.target)
             && c.download.Some? && EqualFold(c.download.value, c.target.sha256)
    {
      if c.target.version == "" || c.target.version == own {
        return NoUpdate;
      }
      if MarkerMatches(marker, c.target) || c.download.None? {
        return UpdateFailed;
      }
      state := if EqualFold(c.download.value, c.target.sha256) then UpdatePending else UpdateFailed;
      if c.crash == BeforeMark {
        return;
      }
      WriteMarker(c.target);
      if state == UpdatePending && c.crash != AfterMark {
        log := log + [Installed(c.target, c.download.value)];
      }
    }
  }

  // ---- whole runs ----

  /** Between places i and j the marker was overwritten by another target. */
  predicate Overwritten(log: seq<Event>, i: nat, j: nat, t: Target) {
    exists k :: i < k < j <= |log| && log[k].Marked? && log[k].m != TargetMarker(t)
  }

  predicate Checked(log: seq<Event>) {
    forall e :: e in log && e.Installed? ==> EqualFold(e.sum, e.target.sha256)
  }

  predicate AtMostOnce(log: seq<Event>) {
    forall i, j :: 0 <= i < j < |log| && log[i].Installed? && log[j].Installed?
      && SameTarget(log[i].target, log[j].target)
      ==> Overwritten(log, i, j, log[i].target)
  }

  /** A target that was run is the marked one, or has been overwritten since. */
  predicate Guarded(a: Agent) {
    forall i :: 0 <= i < |a.log| && a.log[i].Installed?
      ==> a.marker == TargetMarker(a.log[i].target) || Overwritten(a.log, i, |a.log|, a.log[i].target)
  }

  predicate Inv(a: Agent) {
    Checked(a.log) && AtMostOnce(a.log) && Guarded(a)
  }

  lemma OverwrittenLater(log: seq<Event>, more: seq<Event>, i: nat, j: nat, t: Target)
    requires Overwritten(log, i, j, t) && j <= |log|
    ensures Overwritten(log + more, i, j, t)
    ensures forall j' :: j <= j' <= |log + more| ==> Overwritten(log + more, i, j', t)
  {
    var k :| i < k < j && log[k].Marked? && log[k].m != TargetMarker(t);
    assert (log + more)[k] == log[k];
  }

  lemma MarkKeeps(a: Agent, t: Target)
    requires Inv(a)
    ensures Inv(Mark(a, t))
  {
    var log, more := a.log, [Marked(TargetMarker(t))];
    forall i, j | 0 <= i < j <= |log| && log[i].Installed? && Overwritten(log, i, j, log[i].target)
      ensures Overwritten(log + more, i, j, log[i].target) && Overwritten(log + more, i, |log| + 1, log[i].target)
    {
      OverwrittenLater(log, more, i, j, log[i].target);
    }
    forall i | 0 <= i < |log| && log[i].Installed? && TargetMarker(log[i].target) != TargetMarker(t)
      ensures Overwritten(log + more, i, |log| + 1, log[i].target)
    {
      assert (log + more)[|log|].m == TargetMarker(t);
    }
  }

  /** Right after a mark that the previous marker did not already make. */
  lemma InstallKeeps(a: Agent, t: Target, sum: string)
    requires Inv(a) && a.marker != TargetMarker(t) && EqualFold(sum, t.sha256)
    ensures Inv(Mark(a, t).(log := Mark(a, t).log + [Installed(t, sum)]))
  {
    MarkKeeps(a, t);
    var log, more := Mark(a, t).log, [Installed(t, sum)];
    forall i, j | 0 <= i < j <= |log| && log[i].Installed? && Overwritten(log, i, j, log[i].target)
      ensures Overwritten(log + more, i, j, log[i].target) && Overwritten(log + more, i, |log| + 1, log[i].target)
    {
      OverwrittenLater(log, more, i, j, log[i].target);
    }
    forall i | 0 <= i < |log| && log[i].Installed? && SameTarget(log[i].target, t)
      ensures Overwritten(log + more, i, |log|, log[i].target)
    {
      TargetMarkerInjective(log[i].target, t);
      assert i < |a.log| && log[i] == a.log[i];
      OverwrittenLater(a.log, [Marked(TargetMarker(t))], i, |a.log|, log[i].target);
      OverwrittenLater(log, more, i, |log|, log[i].target);
    }
  }

  lemma AttemptKeeps(a: Agent, t: Target, sum: string, crash: Crash)
    requires Inv(a) && !MarkerMatches(a.marker, t)
    ensures Inv(Attempt(a, t, sum, crash))
  {
    MarkKeeps(a, t);
    if EqualFold(sum, t.sha256) {
      InstallKeeps(a, t, sum);
    }
  }

  datatype Machine = Machine(codex: Agent, self: Agent)

  function Play(m: Machine, own: string, cs: seq<(Cycle, Cycle)>): Machine
    decreases |cs|
  {
    if cs == [] then m
    else Play(Machine(UpdateCodex(m.codex, cs[0].0), UpdateSelf(m.self, own, cs[0].1)), own, cs[1..])
  }

  lemma {:induction false} RunKeeps(m: Machine, own: string, cs: seq<(Cycle, Cycle)>)
    requires Inv(m.codex) && Inv(m.self)
    ensures var m' := Play(m, own, cs);
      Inv(m'.codex) && Inv(m'.self)
    decreases |cs|
  {
    if cs != [] {
      var codex, self := cs[0].0, cs[0].1;
      if Fetches(m.codex, codex) {
        AttemptKeeps(m.codex, codex.target, codex.download.value, codex.crash);
      }
      if UpdateSelf(m.self, own, self) != m.self {
        AttemptKeeps(m.self, self.target, self.download.value, self.crash);
      }
      RunKeeps(Machine(UpdateCodex(m.codex, codex), UpdateSelf(m.self, own, self)), own, cs[1..]);
    }
  }

  /** Over any cycles and crashes, from any markers: between two installer runs
      for one target the marker was overwritten by another target's, and nothing
      was run whose checksum differs from the target's. */
  lemma InstallOnce(codex: string, self: string, own: string, cs: seq<(Cycle, Cycle)>)
    ensures var m := Play(Machine(Agent(codex, []), Agent(self, [])), own, cs);
      && AtMostOnce(m.codex.log) && Checked(m.codex.log)
      && AtMostOnce(m.self.log) && Checked(m.self.log)
  {
    RunKeeps(Machine(Agent(codex, []), Agent(self, [])), own, cs);
  }

  /** The same target asked for again and again is tried once: after an attempt
      that was not cut short, nothing more happens until the target changes. */
  lemma {:induction false} NoRetry(m: Machine, own: string, cs: seq<(Cycle, Cycle)>, t: Target)
    requires m.codex.marker == TargetMarker(t)
    requires forall c :: c in cs ==> SameTarget(c.0.target, t)
    ensures Play(m, own, cs).codex == m.codex
    decreases |cs|
  {
    if cs != [] {
      assert cs[0] in cs;
      TargetMarkerInjective(cs[0].0.target, t);
      NoRetry(Machine(UpdateCodex(m.codex, cs[0].0), UpdateSelf(m.self, own, cs[0].1)), own, cs[1..], t);
    }
  }

  /** A target under a new generation is tried again. */
  lemma NewGenerationIsTried(a: Agent, t: Target, c: Cycle)
    requires a.marker == TargetMarker(t) && SameTarget(c.target, t.(generation := c.target.generation))
    requires c.target.generation != t.generation
    requires c.installed.Some? && Eligible(c.target, c.installed.value) && Closed(c)
    requires c.free.None? || c.free.value >= INSTALL_HEADROOM
    requires c.download.Some? && EqualFold(c.download.value, c.target.sha256) && c.crash == Never
    ensures UpdateCodex(a, c).log == a.log + [Marked(TargetMarker(c.target)), Installed(c.target, c.download.value)]
  {
    MatchesExactly(t, c.target);
    assert |t.version| < |TargetMarker(t)|;
  }

  // ---- never over a running Codex ----

  /** The agent after k cycles. */
  function CodexAt(a: Agent, cs: seq<Cycle>, k: nat): Agent
    requires k <= |cs|
  {
    if k == 0 then a else UpdateCodex(CodexAt(a, cs, k - 1), cs[k - 1])
  }

  /** Nothing was running, or what ran was closed and was gone; and there was room, as
      far as that is known. */
  predicate SafeToInstall(c: Cycle) {
    && (c.running == Some(false) || (c.running == Some(true) && c.stopped && c.still == Some(false)))
    && (c.free.None? || c.free.value >= 3 * 1024 * 1024 * 1024)
  }

  lemma OneCycle(a: Agent, c: Cycle)
    ensures UpdateCodex(a, c).log[..|a.log|] == a.log && |UpdateCodex(a, c).log| >= |a.log|
    ensures forall e :: e in UpdateCodex(a, c).log[|a.log|..] && e.Installed? ==>
      SafeToInstall(c) && Named(c.target) && e.target == c.target && c.download == Some(e.sum)
      && c.installed.Some? && c.installed.value != c.target.version
  {}

  /** A target that says where its package is and what it must be. */
  predicate Named(t: Target) {
    t.version != "" && t.key != "" && t.sha256 != ""
  }

  lemma {:induction false} LogGrows(a: Agent, cs: seq<Cycle>, k: nat)
    requires k <= |cs|
    ensures |a.log| <= |CodexAt(a, cs, k).log| && CodexAt(a, cs, k).log[..|a.log|] == a.log
  {
    if k > 0 {
      LogGrows(a, cs, k - 1);
      OneCycle(CodexAt(a, cs, k - 1), cs[k - 1]);
    }
  }

  /** Over any cycles, crashes and markers: the installer only ever ran in a cycle that
      found nothing running or had closed it for good, found room, and asked for a
      version that was not installed; and it ran that cycle's package. */
  lemma {:induction false} InstalledSafely(a: Agent, cs: seq<Cycle>, k: nat, i: nat) returns (n: nat)
    requires k <= |cs| && |a.log| <= i < |CodexAt(a, cs, k).log| && CodexAt(a, cs, k).log[i].Installed?
    ensures n < k && SafeToInstall(cs[n]) && cs[n].target == CodexAt(a, cs, k).log[i].target
    ensures cs[n].download == Some(CodexAt(a, cs, k).log[i].sum) && Named(cs[n].target)
    ensures cs[n].installed.Some? && cs[n].installed.value != cs[n].target.version
  {
    var before := CodexAt(a, cs, k - 1);
    OneCycle(before, cs[k - 1]);
    LogGrows(a, cs, k - 1);
    if i < |before.log| {
      assert CodexAt(a, cs, k).log[..|before.log|][i] == before.log[i];
      n := InstalledSafely(a, cs, k - 1, i);
    } else {
      n := k - 1;
      assert CodexAt(a, cs, k).log[|before.log|..][i - |before.log|] == CodexAt(a, cs, k).log[i];
    }
  }

  /** A cycle in which Codex cannot be closed, or that lacks the room, leaves marker and
      log as they were, so that the next safe one still tries the target. */
  lemma RefusedIsTriedLater(a: Agent, refused: seq<Cycle>, c: Cycle)
    requires forall r :: r in refused ==> !SafeToInstall(r)
    requires SafeToInstall(c) && c.installed.Some? && c.installed.value != c.target.version
    requires Named(c.target)
    requires a.marker != TargetMarker(c.target) && !(c.target.generation == 0 && a.marker == c.target.version)
    requires c.download.Some? && EqualFold(c.download.value, c.target.sha256) && c.crash == Never
    ensures CodexAt(a, refused + [c], |refused|) == a
    ensures CodexAt(a, refused + [c], |refused| + 1).log
      == a.log + [Marked(TargetMarker(c.target)), Installed(c.target, c.download.value)]
  {
    RefusedChangesNothing(a, refused, c, |refused|);
    assert (refused + [c])[|refused|] == c;
  }

  lemma {:induction false} RefusedChangesNothing(a: Agent, refused: seq<Cycle>, c: Cycle, k: nat)
    requires (forall r :: r in refused ==> !SafeToInstall(r)) && k <= |refused|
    ensures CodexAt(a, refused + [c], k) == a
  {
    if k > 0 {
      RefusedChangesNothing(a, refused, c, k - 1);
      assert (refused + [c])[k - 1] == refused[k - 1] && refused[k - 1] in refused;
    }
  }

  /** A run that the report calls idle with a new version is exactly one whose installer
      ran to its end: a refused, failed or unmarked package never counts as success. */
  lemma SuccessIsInstalled(a: Agent, c: Cycle)
    requires c.crash == Never
    ensures Succeeds(a, c)
      <==> c.installs && UpdateCodex(a, c).log != a.log && UpdateCodex(a, c).log[|UpdateCodex(a, c).log| - 1].Installed?
  {}

  /** A process that dies before the marker leaves nothing behind; one that dies after it
      does not try again. */
  lemma WhereItDies(a: Agent, c: Cycle)
    ensures c.crash == BeforeMark ==> UpdateCodex(a, c) == a
    ensures c.crash == AfterMark ==> forall e :: e in UpdateCodex(a, c).log[|a.log|..] ==> e.Marked?
    ensures c.crash != BeforeMark && UpdateCodex(a, c) != a ==> UpdateCodex(UpdateCodex(a, c), c) == UpdateCodex(a, c)
  {}

  // ---- the marker of an older agent ----

  lemma VersionIsNoMarker(v: string, t: Target)
    requires '@' !in v
    ensures v != TargetMarker(t)
  {
    assert TargetMarker(t)[|t.version|] == '@';
  }

  /** A bare version stands for generation zero of that version, and for nothing else. */
  lemma BareMarker(v: string, t: Target)
    requires '@' !in v
    ensures MarkerMatches(v, t) <==> t.version == v && t.generation == 0
  {
    VersionIsNoMarker(v, t);
  }

  // ---- digests ----

  predicate SameLetter(c: char, d: char) {
    c == d || ('A' <= c <= 'Z' && d as int == c as int + 32) || ('A' <= d <= 'Z' && c as int == d as int + 32)
  }

  /** Equal but for the case of letters, character by character. */
  lemma EqualFoldMeaning(a: string, b: string)
    ensures EqualFold(a, b) <==> |a| == |b| && forall i :: 0 <= i < |a| ==> SameLetter(a[i], b[i])
  {
    if EqualFold(a, b) {
      forall i | 0 <= i < |a|
        ensures SameLetter(a[i], b[i])
      {
        assert Lower(a)[i] == Lower(b)[i];
      }
    }
    if |a| == |b| && forall i :: 0 <= i < |a| ==> SameLetter(a[i], b[i]) {
      assert forall i :: 0 <= i < |a| ==> Lower(a)[i] == Lower(b)[i];
    }
  }

  // ---- the agent's own update ----

  /** The agent replaces itself only by the targeted version, another one than its own,
      with the checksum the target names, and once per target. */
  lemma SelfAppliedSafely(a: Agent, own: string, c: Cycle)
    ensures forall e :: e in UpdateSelf(a, own, c).log[|a.log|..] && e.Installed? ==>
      && c.target.version != "" && c.target.version != own && e.target == c.target
      && c.download == Some(e.sum) && EqualFold(e.sum, c.target.sha256) && !MarkerMatches(a.marker, c.target)
  {}

  /** And it does so when such a package is there. */
  lemma SelfIsApplied(a: Agent, own: string, c: Cycle)
    requires c.target.version != "" && c.target.version != own && !MarkerMatches(a.marker, c.target)
    requires c.download.Some? && EqualFold(c.download.value, c.target.sha256) && c.crash == Never
    ensures UpdateSelf(a, own, c).log
      == a.log + [Marked(TargetMarker(c.target)), Installed(c.target, c.download.value)]
  {}
}
