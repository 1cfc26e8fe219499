/** The console's one-shot restart request, and the deliveries that end the same
    session (runCodexRestart and the sweep of go/internal/agentcore). */
module CodexRestart {
  import opened Text
  import opened Decimal

  datatype Mark = Mark(nonce: string, at: string, note: string)

  const NO_MARK: Mark := Mark("", "", "")
  const NO_PROFILE: Mark := Mark("", "", "no bound user profile")

  /** What StopCodex returns: how many processes it killed, or an error. */
  datatype Stop = Killed(processes: nat) | StopFails(error: string)

  /** What the cycle's credential step finds. */
  datatype Credentials =
    | FetchFails
    | Withdrawn(removed: Option<nat>)
    | Unchanged
    | Unreadable
    | Deployed(written: nat, credentialChanged: bool, changed: set<string>)

  /** A cycle of a bound machine: the request, the machine, what StopCodex would
      do at each of its calls, the clock, and whether the process dies before the
      marker. */
  datatype Cycle = Cycle(
    nonce: string, userExists: bool, credentials: Credentials, sweep: Stop, kill: Stop, now: string, crash: bool)

  const CONFIG: string := "codex/config.toml"
  const MODELS: string := "codex/models.json"

  predicate EndsSession(names: set<string>) {
    exists n :: n in names && n != MODELS && n != CONFIG
  }

  /** A delivery ends the session for a new token or gateway, and for any file
      but the two that wait for the next start. */
  predicate DeliveryStops(c: Cycle) {
    c.userExists && match c.credentials
      case Withdrawn(removed) => removed.Some? && removed.value > 0
      case Deployed(written, credentialChanged, changed) =>
        written > 0 && (credentialChanged || EndsSession(changed))
      case _ => false
  }

  /** The request is new and there is somebody to carry it out for. */
  predicate Due(mark: Mark, c: Cycle) {
    c.nonce != "" && mark.nonce != c.nonce && c.userExists
  }

  /** A kill made for the request itself, not covered by the delivery's. */
  predicate KillsForRequest(mark: Mark, c: Cycle) {
    Due(mark, c) && !DeliveryStops(c)
  }

  function KilledNote(killed: nat): string {
    if killed == 0 then "no process" else if killed == 1 then "killed 1 process"
    else "killed " + Itoa(killed) + " processes"
  }

  function Note(stop: Stop): string {
    match stop
    case StopFails(error) => error
    case Killed(processes) => KilledNote(processes)
  }

  /** What carrying out the request of this cycle leaves. */
  function Done(c: Cycle): Mark {
    Mark(c.nonce, c.now, Note(if DeliveryStops(c) then c.sweep else c.kill))
  }

  function AfterCycle(mark: Mark, c: Cycle): Mark {
    if !Due(mark, c) || c.crash then mark else Done(c)
  }

  function Reported(mark: Mark, c: Cycle): Mark {
    if c.nonce == "" then NO_MARK
    else if mark.nonce == c.nonce then mark
    else if !c.userExists then NO_PROFILE
    else Done(c)
  }

  class Syncer {
    var mark: Mark
    ghost var stops: nat
    ghost var requested: seq<string>

    method StopCodex(outcome: Stop) returns (killed: Stop)
      modifies this`stops
      ensures killed == outcome && stops == old(stops) + 1
    {
      stops := stops + 1;
      return outcome;
    }

    /** The credential step: whether it stopped the session, and how that went. */
    method Deliver(c: Cycle) returns (done: bool, killed: Stop)
      modifies this`stops
      ensures done == DeliveryStops(c) && (done ==> killed == c.sweep)
      ensures stops == old(stops) + if done then 1 else 0
    {
      done, killed := false, Killed(0);
      if !c.userExists {
        return;
      }
      match c.credentials
      case Withdrawn(removed) =>
        if removed.Some? && removed.value > 0 {
          killed := StopCodex(c.sweep);
          done := true;
        }
      case Deployed(written, credentialChanged, changed) =>
        if written > 0 {
          var restart := credentialChanged;
          var rest := changed;
          while rest != {}
            invariant rest <= changed
            invariant restart <==> credentialChanged || EndsSession(changed - rest)
          {
            var name :| name in rest;
            if name != MODELS && name != CONFIG {
              restart := true;
            }
            assert changed - (rest - {name}) == (changed - rest) + {name};
            rest := rest - {name};
          }
          assert changed - {} == changed;
          if restart {
            killed := StopCodex(c.sweep);
            done := true;
          }
        }
      case _ =>
    }

    method RunCodexRestart(c: Cycle, done: bool, swept: Stop) returns (m: Mark)
      requires done == DeliveryStops(c) && (done ==> swept == c.sweep)
      modifies this
      ensures mark == AfterCycle(old(mark), c)
      ensures m == Reported(old(mark), c)
      ensures requested == if KillsForRequest(old(mark), c) then old(requested) + [c.nonce] else old(requested)
      ensures stops == old(stops) + if KillsForRequest(old(mark), c) then 1 else 0
    {
      if c.nonce == "" {
        return NO_MARK;
      }
      if mark.nonce == c.nonce {
        return mark;
      }
      if !c.userExists {
        return NO_PROFILE;
      }
      var killed := swept;
      if !done {
        killed := StopCodex(c.kill);
        requested := requested + [c.nonce];
      }
      m := Mark(c.nonce, c.now, Note(killed));
      if !c.crash {
        mark := m;
      }
    }

    /** One interruption per cycle at most, for a delivery and a request together. */
    method BoundCycle(c: Cycle) returns (m: Mark)
      modifies this
      ensures mark == AfterCycle(old(mark), c) && m == Reported(old(mark), c)
      ensures stops == old(stops) + if DeliveryStops(c) || Due(old(mark), c) then 1 else 0
    {
      var done, killed := Deliver(c);
      m := RunCodexRestart(c, done, killed);
    }
  }

  // ---- whole runs ----

  function Play(mark: Mark, cs: seq<Cycle>): Mark
    decreases |cs|
  {
    if cs == [] then mark else Play(AfterCycle(mark, cs[0]), cs[1..])
  }

  /** How many kills a run makes for the request n. */
  function Kills(n: string, mark: Mark, cs: seq<Cycle>): nat
    decreases |cs|
  {
    if cs == [] then 0
    else
      (if KillsForRequest(mark, cs[0]) && cs[0].nonce == n then 1 else 0)
      + Kills(n, AfterCycle(mark, cs[0]), cs[1..])
  }

  /** How many cycles of the run die between a kill for n and its marker. */
  function Crashes(n: string, mark: Mark, cs: seq<Cycle>): nat
    decreases |cs|
  {
    if cs == [] then 0
    else (if KillsForRequest(mark, cs[0]) && cs[0].nonce == n && cs[0].crash then 1 else 0)
         + Crashes(n, AfterCycle(mark, cs[0]), cs[1..])
  }

  /** Once another request takes its place, n does not come back. */
  predicate Replaced(n: string, cs: seq<Cycle>) {
    forall j, k :: 0 <= j < k < |cs| && cs[j].nonce != n && cs[j].nonce != "" ==> cs[k].nonce != n
  }

  predicate NeverRepeats(n: string, cs: seq<Cycle>) {
    forall i, j, k :: 0 <= i < j < k < |cs| && cs[i].nonce == n && cs[j].nonce != n && cs[j].nonce != ""
      ==> cs[k].nonce != n
  }

  lemma {:induction false} Gone(n: string, mark: Mark, cs: seq<Cycle>)
    requires forall k :: 0 <= k < |cs| ==> cs[k].nonce != n
    ensures Kills(n, mark, cs) == 0
    decreases |cs|
  {
    if cs != [] {
      Gone(n, AfterCycle(mark, cs[0]), cs[1..]);
    }
  }

  lemma {:induction false} AlreadyDone(n: string, mark: Mark, cs: seq<Cycle>)
    requires n != "" && mark.nonce == n && Replaced(n, cs)
    ensures Kills(n, mark, cs) == 0
    decreases |cs|
  {
    if cs != [] {
      if cs[0].nonce == n || cs[0].nonce == "" {
        assert forall k :: 0 <= k < |cs[1..]| ==> cs[1..][k] == cs[k + 1];
        AlreadyDone(n, mark, cs[1..]);
      } else {
        assert forall k :: 0 <= k < |cs[1..]| ==> cs[1..][k] == cs[k + 1];
        Gone(n, AfterCycle(mark, cs[0]), cs[1..]);
      }
    }
  }

  /** Every request costs at most one kill, and one more for each time the
      process dies between the kill and the marker. */
  lemma {:induction false} KillsAreBounded(n: string, mark: Mark, cs: seq<Cycle>)
    requires n != "" && NeverRepeats(n, cs)
    ensures Kills(n, mark, cs) <= 1 + Crashes(n, mark, cs)
    decreases |cs|
  {
    if cs != [] {
      var c, rest := cs[0], cs[1..];
      assert forall k :: 0 <= k < |rest| ==> rest[k] == cs[k + 1];
      if KillsForRequest(mark, c) && c.nonce == n && !c.crash {
        AlreadyDone(n, AfterCycle(mark, c), rest);
      } else {
        KillsAreBounded(n, AfterCycle(mark, c), rest);
      }
    }
  }

  // ---- exactly when a request costs a second kill ----

  /** The cycle would kill for n: it asks for n, there is a profile, and no
      delivery has ended the session already. */
  predicate Attempts(n: string, c: Cycle) {
    c.nonce == n && c.userExists && !DeliveryStops(c)
  }

  /** The cycle carries n out and lives to mark it. */
  predicate Settles(n: string, c: Cycle) {
    c.nonce == n && c.userExists && !c.crash
  }

  /** No cycle before place j settles n. */
  predicate OpenAt(n: string, cs: seq<Cycle>, j: nat)
    requires j <= |cs|
  {
    forall k :: 0 <= k < j ==> !Settles(n, cs[k])
  }

  predicate OneTry(n: string, cs: seq<Cycle>) {
    exists j :: 0 <= j < |cs| && Attempts(n, cs[j]) && OpenAt(n, cs, j)
  }

  /** Two cycles attempt n, and none before the later one settles it. */
  predicate TwoTries(n: string, cs: seq<Cycle>) {
    exists i, j :: 0 <= i < j < |cs| && Attempts(n, cs[i]) && Attempts(n, cs[j]) && OpenAt(n, cs, j)
  }

  /** The attempts up to the cycle that settles n. */
  function Tries(n: string, cs: seq<Cycle>): nat {
    if cs == [] then 0
    else (if Attempts(n, cs[0]) then 1 else 0) + if Settles(n, cs[0]) then 0 else Tries(n, cs[1..])
  }

  lemma OpenShift(n: string, cs: seq<Cycle>, j: nat)
    requires j < |cs|
    ensures OpenAt(n, cs, j + 1) <==> !Settles(n, cs[0]) && OpenAt(n, cs[1..], j)
  {
    assert forall k :: 0 <= k < j ==> cs[1..][k] == cs[k + 1];
    assert forall k :: 1 <= k < j + 1 ==> cs[k] == cs[1..][k - 1];
  }

  lemma OneTryShift(n: string, cs: seq<Cycle>)
    requires cs != []
    ensures OneTry(n, cs) <==> Attempts(n, cs[0]) || (!Settles(n, cs[0]) && OneTry(n, cs[1..]))
  {
    assert OpenAt(n, cs, 0);
    if !Attempts(n, cs[0]) && OneTry(n, cs) {
      var j :| 0 <= j < |cs| && Attempts(n, cs[j]) && OpenAt(n, cs, j);
      OpenShift(n, cs, j - 1);
      assert cs[1..][j - 1] == cs[j];
    }
    if !Settles(n, cs[0]) && OneTry(n, cs[1..]) {
      var j :| 0 <= j < |cs[1..]| && Attempts(n, cs[1..][j]) && OpenAt(n, cs[1..], j);
      OpenShift(n, cs, j);
      assert cs[j + 1] == cs[1..][j];
    }
  }

  lemma TwoTriesShift(n: string, cs: seq<Cycle>)
    requires cs != []
    ensures TwoTries(n, cs)
      <==> !Settles(n, cs[0]) && (TwoTries(n, cs[1..]) || (Attempts(n, cs[0]) && OneTry(n, cs[1..])))
  {
    var rest := cs[1..];
    if TwoTries(n, cs) {
      var i, j :| 0 <= i < j < |cs| && Attempts(n, cs[i]) && Attempts(n, cs[j]) && OpenAt(n, cs, j);
      OpenShift(n, cs, j - 1);
      assert rest[j - 1] == cs[j] && (i > 0 ==> rest[i - 1] == cs[i]);
    }
    if !Settles(n, cs[0]) && TwoTries(n, rest) {
      var i, j :| 0 <= i < j < |rest| && Attempts(n, rest[i]) && Attempts(n, rest[j]) && OpenAt(n, rest, j);
      OpenShift(n, cs, j);
      assert cs[i + 1] == rest[i] && cs[j + 1] == rest[j];
    }
    if !Settles(n, cs[0]) && Attempts(n, cs[0]) && OneTry(n, rest) {
      var j :| 0 <= j < |rest| && Attempts(n, rest[j]) && OpenAt(n, rest, j);
      OpenShift(n, cs, j);
      assert cs[j + 1] == rest[j];
    }
  }

  lemma {:induction false} TriesCounted(n: string, cs: seq<Cycle>)
    ensures Tries(n, cs) >= 1 <==> OneTry(n, cs)
    ensures Tries(n, cs) >= 2 <==> TwoTries(n, cs)
  {
    if cs != [] {
      OneTryShift(n, cs);
      TwoTriesShift(n, cs);
      TriesCounted(n, cs[1..]);
    }
  }

  /** What a request costs, read off the cycles alone. */
  lemma {:induction false} KillsExactly(n: string, mark: Mark, cs: seq<Cycle>)
    requires n != "" && mark.nonce != n && NeverRepeats(n, cs)
    ensures Kills(n, mark, cs) == Tries(n, cs)
    decreases |cs|
  {
    if cs != [] {
      var c, rest := cs[0], cs[1..];
      assert forall k :: 0 <= k < |rest| ==> rest[k] == cs[k + 1];
      if Settles(n, c) {
        AlreadyDone(n, AfterCycle(mark, c), rest);
      } else {
        KillsExactly(n, AfterCycle(mark, c), rest);
      }
    }
  }

  /** A request costs at most one kill if and only if it was marked already, or no
      two cycles attempt it before one settles it. */
  lemma OneKillPerRequest(n: string, mark: Mark, cs: seq<Cycle>)
    requires n != "" && NeverRepeats(n, cs) && (mark.nonce == n ==> Replaced(n, cs))
    ensures Kills(n, mark, cs) <= 1 <==> mark.nonce == n || !TwoTries(n, cs)
  {
    if mark.nonce == n {
      AlreadyDone(n, mark, cs);
    } else {
      KillsExactly(n, mark, cs);
      TriesCounted(n, cs);
    }
  }

  /** Without a crash in a cycle that kills for it, a request costs one kill. */
  lemma NoCrashOneKill(n: string, mark: Mark, cs: seq<Cycle>)
    requires n != "" && NeverRepeats(n, cs) && (mark.nonce == n ==> Replaced(n, cs))
    requires forall c :: c in cs && Attempts(n, c) ==> !c.crash
    ensures Kills(n, mark, cs) <= 1
  {
    OneKillPerRequest(n, mark, cs);
    assert forall i :: 0 <= i < |cs| && Attempts(n, cs[i]) ==> cs[i] in cs && Settles(n, cs[i]);
  }

  /** A crash there does cost a second kill. */
  lemma CrashKillsTwice(n: string)
    requires n != ""
    ensures var c := Cycle(n, true, Unchanged, Killed(0), Killed(1), "", true);
      Kills(n, NO_MARK, [c, c.(crash := false)]) == 2
  {
    var c := Cycle(n, true, Unchanged, Killed(0), Killed(1), "", true);
    assert [c, c.(crash := false)][1..] == [c.(crash := false)] && [c.(crash := false)][1..] == [];
    assert Kills(n, NO_MARK, [c.(crash := false)]) == 1;
  }

  /** A request waits for a profile and is carried out in the first cycle that has
      one: by its own kill, or by the delivery's in the same cycle. */
  lemma {:induction false} FirstChance(n: string, mark: Mark, waiting: seq<Cycle>, c: Cycle)
    requires n != "" && mark.nonce != n
    requires forall w :: w in waiting ==> w.nonce == n && !w.userExists
    requires c.nonce == n && c.userExists && !c.crash
    ensures Play(mark, waiting) == mark && Kills(n, mark, waiting) == 0
    ensures KillsForRequest(mark, c) || DeliveryStops(c)
    ensures Play(mark, waiting + [c]).nonce == n
    decreases |waiting|
  {
    if waiting == [] {
      assert [] + [c] == [c] && [c][1..] == [];
    } else {
      assert waiting[0] in waiting;
      assert (waiting + [c])[1..] == waiting[1..] + [c];
      FirstChance(n, mark, waiting[1..], c);
    }
  }

  // ---- when a delivery ends the session ----

  /** A revocation that removed something. */
  ghost predicate Revokes(c: Cycle) {
    exists n: nat :: n > 0 && c.credentials == Withdrawn(Some(n))
  }

  /** A delivery that placed something and either brought another token or gateway or
      changed a file other than the catalog and config.toml. */
  ghost predicate Replaces(c: Cycle) {
    exists written: nat, moved, changed ::
      && c.credentials == Deployed(written, moved, changed) && written > 0
      && (moved || !(changed <= {"codex/config.toml", "codex/models.json"}))
  }

  lemma StopsExactly(c: Cycle)
    ensures DeliveryStops(c) <==> c.userExists && (Revokes(c) || Replaces(c))
  {
    if c.credentials.Deployed? {
      var changed := c.credentials.changed;
      if !(changed <= {"codex/config.toml", "codex/models.json"}) {
        var n :| n in changed && n !in {"codex/config.toml", "codex/models.json"};
        assert EndsSession(changed);
      }
    }
  }

  /** A new token ends the session once, whatever request is pending; a new model or
      catalog alone leaves it running unless one is. */
  lemma TokenEndsSession(mark: Mark, c: Cycle, written: nat, changed: set<string>)
    requires c.userExists && written > 0
    ensures c.credentials == Deployed(written, true, changed) ==> DeliveryStops(c) && !KillsForRequest(mark, c)
    ensures c.credentials == Deployed(written, false, changed) && changed <= {CONFIG, MODELS} ==>
      !DeliveryStops(c) && (KillsForRequest(mark, c) <==> Due(mark, c))
  {}

  // ---- what is reported ----

  /** The stops that one cycle makes: the delivery's, or the request's own. */
  function StopsMade(mark: Mark, c: Cycle): seq<Stop> {
    (if DeliveryStops(c) then [c.sweep] else []) + (if KillsForRequest(mark, c) then [c.kill] else [])
  }

  /** A due request comes with one stop, whoever makes it, and the report holds the
      request, the time and what came of that stop. */
  lemma ReportHoldsTheStop(mark: Mark, c: Cycle)
    requires Due(mark, c)
    ensures |StopsMade(mark, c)| == 1
    ensures Reported(mark, c) == Mark(c.nonce, c.now,
      if StopsMade(mark, c)[0].Killed? then KilledNote(StopsMade(mark, c)[0].processes)
      else StopsMade(mark, c)[0].error)
  {}

  /** The console sees the request in the report exactly when it has been carried out,
      in this cycle or before; until then it sees why not. */
  lemma ReportTellsDone(mark: Mark, c: Cycle)
    requires c.nonce != ""
    ensures Reported(mark, c).nonce == c.nonce <==> mark.nonce == c.nonce || c.userExists
    ensures mark.nonce != c.nonce && !c.userExists ==> Reported(mark, c) == Mark("", "", "no bound user profile")
  {}

  /** What is reported once is reported again for as long as the request stands, and
      nothing is reported without one. */
  lemma ReportIsKept(mark: Mark, c: Cycle, later: Cycle)
    ensures c.nonce != "" && (mark.nonce == c.nonce || c.userExists) && !c.crash && later.nonce == c.nonce ==>
      Reported(AfterCycle(mark, c), later) == Reported(mark, c)
    ensures c.nonce == "" ==> Reported(mark, c) == Mark("", "", "") && AfterCycle(mark, c) == mark
  {}

  /** The note tells how many processes were killed. */
  lemma NoteTellsCount(a: nat, b: nat)
    ensures KilledNote(a) == KilledNote(b) <==> a == b
    ensures KilledNote(0) == "no process" && KilledNote(1) == "killed 1 process"
    ensures a > 1 ==> KilledNote(a) == "killed " + Itoa(a) + " processes"
  {
    if a != b && KilledNote(a) == KilledNote(b) {
      NoteParts(a);
      NoteParts(b);
      if a > 1 && b > 1 {
        assert KilledNote(a)[7..7 + |Itoa(a)|] == Itoa(a) && KilledNote(b)[7..7 + |Itoa(b)|] == Itoa(b);
        assert |Itoa(a)| == |Itoa(b)|;
        ItoaInjective(a, b);
      }
    }
  }

  lemma NoteParts(n: nat)
    ensures n == 0 ==> KilledNote(n)[0] == 'n'
    ensures n >= 1 ==> KilledNote(n)[0] == 'k'
    ensures n == 1 ==> KilledNote(n)[|KilledNote(n)| - 2] == 's' && KilledNote(n)[|KilledNote(n)| - 3] == 'e'
    ensures n > 1 ==> KilledNote(n)[|KilledNote(n)| - 2] == 'e'
  {}
}
