/** The agent's service loop (go/cmd/agent/main.go) as a machine of steps:
    the waiter, the timers and the running sync interleave with it freely. */
module AgentLoop {
  import opened Text

  /** Thirty seconds, in nanoseconds. */
  const MIN_SYNC_GAP: int := 30_000_000_000

  /** What the loop's closures, its channels and its goroutines hold. */
  datatype State = State(
    ready: bool,              // a source of instructions is known
    waiting: bool,            // the console waiter runs
    lastRun: Option<int>,     // when a sync last started
    syncing: bool,
    pendingSync: bool,
    token: bool,              // the notify channel, of capacity one
    timers: seq<int>,         // armed deferrals, by deadline
    running: nat,             // goroutines inside RunOnce
    results: nat,             // results waiting in syncDone
    now: int)

  datatype Event =
    | Changed                 // the waiter's long poll returns "changed"
    | SyncEnds                // RunOnce returns
    | TakeResult              // the loop receives from syncDone
    | TakeToken               // the loop receives from notify
    | Fire(timer: nat)        // a deferral comes due
    | Trigger                 // wake-up, overdue, or a change seen on the tick
    | Adopt                   // a late enrolment succeeds
    | Wait(time: nat)

  // ---- the steps ----

  function StartSync(s: State, consoleChanged: bool): State {
    if !s.ready then s
    else if s.syncing then s.(pendingSync := true)
    else if InGap(s) then
      if consoleChanged then s.(timers := s.timers + [s.lastRun.value + MIN_SYNC_GAP]) else s
    else s.(lastRun := Some(s.now), syncing := true, running := s.running + 1)
  }

  predicate InGap(s: State) {
    s.lastRun.Some? && s.now - s.lastRun.value < MIN_SYNC_GAP
  }

  function FinishSync(s: State): State {
    s.(syncing := false, pendingSync := false, token := s.token || s.pendingSync)
  }

  predicate Enabled(s: State, e: Event) {
    match e
    case Changed => s.waiting
    case SyncEnds => s.running > 0
    case TakeResult => s.results > 0
    case TakeToken => s.token
    case Fire(i) => i < |s.timers| && s.timers[i] <= s.now
    case Trigger => true
    case Adopt => !s.waiting
    case Wait(_) => true
  }

  function Step(s: State, e: Event): State
    requires Enabled(s, e)
  {
    match e
    case Changed => s.(token := true)
    case SyncEnds => s.(running := s.running - 1, results := s.results + 1)
    case TakeResult => FinishSync(s.(results := s.results - 1))
    case TakeToken => StartSync(s.(token := false), true)
    case Fire(i) => s.(token := true, timers := s.timers[..i] + s.timers[i + 1..])
    case Trigger => StartSync(s, false)
    case Adopt => StartSync(s.(ready := true, waiting := true), false)
    case Wait(time) => s.(now := s.now + time)
  }

  // ---- the loop's own variables ----

  class Loop {
    var ready: bool
    var waiting: bool
    var lastRun: Option<int>
    var syncing: bool
    var pendingSync: bool
    var token: bool
    var timers: seq<int>
    var running: nat
    var results: nat

    function View(now: int): State
      reads this
    {
      State(ready, waiting, lastRun, syncing, pendingSync, token, timers, running, results, now)
    }

    constructor (hasSource: bool, fromConsole: bool, now: int)
      ensures View(now) == Booted(hasSource, fromConsole, now)
    {
      ready, waiting := hasSource, hasSource && fromConsole;
      lastRun, syncing, pendingSync := None, false, false;
      token, timers, running, results := false, [], 0, 0;
    }

    method Nudge(now: int)
      modifies this`token
      ensures View(now) == old(View(now)).(token := true)
    {
      if !token {
        token := true;
      }
    }

    method Start(reason: string, now: int)
      modifies this
      ensures View(now) == StartSync(old(View(now)), reason == "console changed")
    {
      if !ready {
        return;
      }
      if syncing {
        pendingSync := true;
        return;
      }
      if lastRun.Some? && now - lastRun.value < MIN_SYNC_GAP {
        if reason == "console changed" {
          timers := timers + [now + (MIN_SYNC_GAP - (now - lastRun.value))];
        }
        return;
      }
      lastRun := Some(now);
      syncing := true;
      running := running + 1;
    }

    method Finish(now: int)
      modifies this
      ensures View(now) == FinishSync(old(View(now)))
    {
      syncing := false;
      if pendingSync {
        pendingSync := false;
        Nudge(now);
      }
    }

    method TakeFromSyncDone(now: int)
      requires results > 0
      modifies this
      ensures View(now) == Step(old(View(now)), TakeResult)
    {
      results := results - 1;
      Finish(now);
    }

    method TakeFromNotify(now: int)
      requires token
      modifies this
      ensures View(now) == Step(old(View(now)), TakeToken)
    {
      token := false;
      Start("console changed", now);
    }

    method TakeAdopted(now: int)
      requires !waiting
      modifies this
      ensures View(now) == Step(old(View(now)), Adopt)
    {
      ready, waiting := true, true;
      Start("console enrolled", now);
    }

    method TimerFires(i: nat, now: int)
      requires i < |timers| && timers[i] <= now
      modifies this
      ensures View(now) == Step(old(View(now)), Fire(i))
    {
      timers := timers[..i] + timers[i + 1..];
      Nudge(now);
    }

    /** One tick: an overdue sync, or a change the store itself shows. */
    method Tick(due: bool, changed: bool, what: string, now: int)
      requires what + " changed" != "console changed"
      modifies this
      ensures View(now) == if due || changed then Step(old(View(now)), Trigger) else old(View(now))
    {
      if due {
        Start("scheduled", now);
      } else if changed {
        Start(what + " changed", now);
      }
    }
  }

  // ---- whole runs ----

  /** A state with what its past owes: a console change that no sync has started
      after, and when syncs started. */
  datatype Run = Run(s: State, owed: bool, starts: seq<int>)

  function Booted(ready: bool, fromConsole: bool, now: int): State {
    State(ready, ready && fromConsole, None, false, false, false, [], 0, 0, now)
  }

  predicate Starts(s: State, e: Event)
    requires Enabled(s, e)
  {
    Step(s, e).running > s.running
  }

  function After(r: Run, e: Event): Run
    requires Enabled(r.s, e)
  {
    var started := Starts(r.s, e);
    Run(Step(r.s, e), (r.owed || e.Changed?) && !started, if started then r.starts + [r.s.now] else r.starts)
  }

  predicate Possible(r: Run, es: seq<Event>)
    decreases |es|
  {
    es == [] || (Enabled(r.s, es[0]) && Possible(After(r, es[0]), es[1..]))
  }

  function Play(r: Run, es: seq<Event>): Run
    requires Possible(r, es)
    decreases |es|
  {
    if es == [] then r else Play(After(r, es[0]), es[1..])
  }

  /** A change that still waits for its sync is in one of three places. */
  predicate Held(s: State) {
    s.token || (s.syncing && s.pendingSync) || s.timers != []
  }

  predicate Spaced(starts: seq<int>) {
    forall i :: 1 <= i < |starts| ==> starts[i] - starts[i - 1] >= MIN_SYNC_GAP
  }

  predicate Inv(r: Run) {
    var s := r.s;
    && s.running + s.results == (if s.syncing then 1 else 0)
    && (s.pendingSync ==> s.syncing)
    && (s.waiting || s.token || s.syncing || s.timers != [] || s.lastRun.Some? ==> s.ready)
    && (r.owed ==> Held(s))
    && (s.lastRun.None? ==> r.starts == [])
    && (s.lastRun.Some? ==> r.starts != [] && r.starts[|r.starts| - 1] == s.lastRun.value <= s.now)
    && (forall d :: d in s.timers ==> s.lastRun.Some? && d <= s.lastRun.value + MIN_SYNC_GAP)
    && Spaced(r.starts)
  }

  lemma InvFire(r: Run, e: Event)
    requires Inv(r) && Enabled(r.s, e) && e.Fire?
    ensures Inv(After(r, e))
  {
    assert forall d :: d in Step(r.s, e).timers ==> d in r.s.timers;
  }

  lemma InvTakeToken(r: Run, e: Event)
    requires Inv(r) && Enabled(r.s, e) && e.TakeToken?
    ensures Inv(After(r, e))
  {
    StartKeeps(r, r.s.(token := false), true);
  }

  lemma InvTrigger(r: Run, e: Event)
    requires Inv(r) && Enabled(r.s, e) && e.Trigger?
    ensures Inv(After(r, e))
  {
    StartKeeps(r, r.s, false);
  }

  lemma InvAdopt(r: Run, e: Event)
    requires Inv(r) && Enabled(r.s, e) && e.Adopt?
    ensures Inv(After(r, e))
  {
    StartKeeps(r, r.s.(ready := true, waiting := true), false);
  }

  lemma InvNoStart(r: Run, e: Event)
    requires Inv(r) && Enabled(r.s, e) && (e.Changed? || e.SyncEnds? || e.TakeResult? || e.Wait?)
    ensures Inv(After(r, e))
  {}

  lemma InvStep(r: Run, e: Event)
    requires Inv(r) && Enabled(r.s, e)
    ensures Inv(After(r, e))
  {
    match e
    case Fire(_) => InvFire(r, e);
    case TakeToken => InvTakeToken(r, e);
    case Trigger => InvTrigger(r, e);
    case Adopt => InvAdopt(r, e);
    case _ => InvNoStart(r, e);
  }

  /** What startSync does to the timers and the record of starts. */
  lemma StartKeeps(r: Run, s: State, consoleChanged: bool)
    requires Inv(r) && s.lastRun == r.s.lastRun && s.timers == r.s.timers && s.now == r.s.now
    ensures var s' := StartSync(s, consoleChanged);
      && (forall d :: d in s'.timers ==> s'.lastRun.Some? && d <= s'.lastRun.value + MIN_SYNC_GAP)
      && (s'.running > s.running ==> Spaced(r.starts + [s.now]) && s'.lastRun == Some(s.now))
      && (s'.running == s.running ==> s'.lastRun == s.lastRun)
  {
    var s' := StartSync(s, consoleChanged);
    if s'.running > s.running {
      forall i | 1 <= i < |r.starts| + 1
        ensures (r.starts + [s.now])[i] - (r.starts + [s.now])[i - 1] >= MIN_SYNC_GAP
      {
        if i == |r.starts| {
          assert (r.starts + [s.now])[i - 1] == s.lastRun.value;
        }
      }
    }
  }

  lemma {:induction false} InvRun(r: Run, es: seq<Event>)
    requires Inv(r) && Possible(r, es)
    ensures Inv(Play(r, es))
    decreases |es|
  {
    if es != [] {
      InvStep(r, es[0]);
      InvRun(After(r, es[0]), es[1..]);
    }
  }

  /** In every interleaving, from the start of the service: a console change not
      yet followed by a sync is held, one sync at most is in flight, and syncs
      start at least the gap apart. */
  lemma NoLostWakeUp(ready: bool, fromConsole: bool, t: int, es: seq<Event>)
    requires Possible(Run(Booted(ready, fromConsole, t), false, []), [Trigger] + es)
    ensures var r := Play(Run(Booted(ready, fromConsole, t), false, []), [Trigger] + es);
      && (r.owed ==> Held(r.s))
      && r.s.running + r.s.results <= 1
      && Spaced(r.starts)
      && (r.s.token ==> r.s.ready)
  {
    InvRun(Run(Booted(ready, fromConsole, t), false, []), [Trigger] + es);
  }

  // ---- every request is served ----

  /** Nothing is in the way of a sync: none is running, and none started within the gap. */
  predicate Free(s: State) {
    !s.syncing && (s.lastRun.None? || s.now - s.lastRun.value >= MIN_SYNC_GAP)
  }

  /** A request that finds the loop free starts a sync at once, whether it comes from the
      start of the service, a wake-up, the schedule, a late enrolment or the console. */
  lemma FreeStarts(s: State, e: Event)
    requires Enabled(s, e) && Free(s) && (e.Adopt? || (s.ready && (e.Trigger? || e.TakeToken?)))
    ensures var s' := Step(s, e);
      s'.running == s.running + 1 && s'.syncing && s'.lastRun == Some(s.now) && s'.ready
  {}

  /** One that finds a sync running is kept for its end, and then puts a token. */
  lemma BusyKeeps(s: State, e: Event)
    requires Enabled(s, e) && s.syncing && (e.Adopt? || (s.ready && (e.Trigger? || e.TakeToken?)))
    ensures var s' := Step(s, e);
      s'.pendingSync && s'.syncing && s'.running == s.running && (s'.results > 0 ==> Step(s', TakeResult).token)
  {}

  /** A late enrolment makes the loop ready and starts the waiter; before it, with no
      source of instructions, no request starts anything. */
  lemma AdoptMakesReady(s: State)
    ensures Enabled(s, Adopt) ==> Step(s, Adopt).ready && Step(s, Adopt).waiting
    ensures !s.ready ==> Step(s, Trigger) == s
  {}

  /** In every interleaving: right after any request of a loop that is ready, a sync is in
      flight or its result waits, or the last one started less than the gap ago. */
  lemma RequestServed(ready: bool, fromConsole: bool, t: int, es: seq<Event>, e: Event)
    requires Possible(Run(Booted(ready, fromConsole, t), false, []), es)
    requires var s := Play(Run(Booted(ready, fromConsole, t), false, []), es).s;
      Enabled(s, e) && (e.Adopt? || (s.ready && (e.Trigger? || e.TakeToken?)))
    ensures var s' := Step(Play(Run(Booted(ready, fromConsole, t), false, []), es).s, e);
      || s'.running + s'.results == 1
      || (s'.lastRun.Some? && s'.now - s'.lastRun.value < MIN_SYNC_GAP)
  {
    var r := Run(Booted(ready, fromConsole, t), false, []);
    InvRun(r, es);
    InvStep(Play(r, es), e);
  }

  /** The waiter runs from the start exactly when the console is the known source, and a
      service that has no source can still be enrolled. */
  lemma BootedState(ready: bool, fromConsole: bool, t: int)
    ensures var s := Booted(ready, fromConsole, t);
      && (s.waiting <==> ready && fromConsole) && s.ready == ready && !s.syncing && s.lastRun.None? && !s.token
      && (!ready ==> Enabled(s, Adopt) && Step(s, Adopt).running == 1)
  {}

  /** The service starts with a sync when it has a source of instructions. */
  lemma StartsAtOnce(fromConsole: bool, t: int)
    ensures var s := Step(Booted(true, fromConsole, t), Trigger);
      s.running == 1 && s.syncing && s.lastRun == Some(t)
  {
    FreeStarts(Booted(true, fromConsole, t), Trigger);
  }

  // ---- the wake-up comes ----

  /** Steps the loop and its goroutines take of themselves. */
  predicate Internal(e: Event) {
    e.SyncEnds? || e.TakeResult? || e.TakeToken? || e.Fire?
  }

  function TimerWeight(s: State, d: int): nat {
    if InGap(s) && d < s.lastRun.value + MIN_SYNC_GAP then 4 else 2
  }

  function TimersWeight(s: State, ds: seq<int>): nat {
    if ds == [] then 0 else TimerWeight(s, ds[0]) + TimersWeight(s, ds[1..])
  }

  function TokenWeight(s: State): nat {
    if !s.token then 0 else if InGap(s) then 3 else 1
  }

  /** How many steps can pass before a sync starts. */
  function Rank(s: State): nat {
    4 * (2 * s.running + s.results) + TokenWeight(s) + TimersWeight(s, s.timers)
  }

  lemma {:induction false} WeightConcat(s: State, a: seq<int>, b: seq<int>)
    ensures TimersWeight(s, a + b) == TimersWeight(s, a) + TimersWeight(s, b)
  {
    if a == [] {
      assert a + b == b;
    } else {
      assert (a + b)[1..] == a[1..] + b;
      WeightConcat(s, a[1..], b);
    }
  }

  /** Weights follow the clock and the last start only, and time lightens them. */
  lemma {:induction false} WeightLater(s: State, s': State, ds: seq<int>)
    requires s.lastRun == s'.lastRun && s.now <= s'.now
    ensures TimersWeight(s', ds) <= TimersWeight(s, ds)
    ensures s.now == s'.now ==> TimersWeight(s', ds) == TimersWeight(s, ds)
  {
    if ds != [] {
      WeightLater(s, s', ds[1..]);
    }
  }

  lemma FiredWeight(s: State, i: nat)
    requires i < |s.timers| && s.timers[i] <= s.now
    ensures TimersWeight(s, s.timers)
      == TimersWeight(s, s.timers[..i] + s.timers[i + 1..]) + TimerWeight(s, s.timers[i])
    ensures TimerWeight(s, s.timers[i]) > (if InGap(s) then 3 else 1)
  {
    var a, d, b := s.timers[..i], s.timers[i], s.timers[i + 1..];
    assert s.timers == a + ([d] + b);
    WeightConcat(s, a, [d] + b);
    WeightConcat(s, [d], b);
    WeightConcat(s, a, b);
    assert [d][1..] == [];
  }

  lemma DeferredWeight(s: State)
    requires InGap(s)
    ensures TimersWeight(s, s.timers + [s.lastRun.value + MIN_SYNC_GAP]) == TimersWeight(s, s.timers) + 2
  {
    var d := [s.lastRun.value + MIN_SYNC_GAP];
    WeightConcat(s, s.timers, d);
    assert d[1..] == [];
  }

  lemma RankFire(r: Run, e: Event)
    requires Inv(r) && Enabled(r.s, e) && e.Fire?
    ensures Rank(Step(r.s, e)) + 1 <= Rank(r.s)
  {
    FiredWeight(r.s, e.timer);
    WeightLater(r.s, Step(r.s, e), Step(r.s, e).timers);
  }

  lemma RankTakeToken(r: Run, e: Event)
    requires Inv(r) && Enabled(r.s, e) && e.TakeToken? && !Starts(r.s, e)
    ensures Rank(Step(r.s, e)) + 1 <= Rank(r.s)
  {
    WeightLater(r.s, Step(r.s, e), Step(r.s, e).timers);
    if InGap(r.s) {
      DeferredWeight(r.s);
    }
  }

  lemma RankOther(r: Run, e: Event)
    requires Inv(r) && Enabled(r.s, e) && !e.Fire? && !e.TakeToken? && !Starts(r.s, e)
    ensures Rank(Step(r.s, e)) + (if Internal(e) then 1 else 0) <= Rank(r.s) + (if e.Changed? then 3 else 0)
  {
    WeightLater(r.s, Step(r.s, e), r.s.timers);
  }

  /** Every step of the loop's own either starts a sync or brings one nearer; a
      new change costs three steps at most, and nothing else costs any. */
  lemma RankStep(r: Run, e: Event)
    requires Inv(r) && Enabled(r.s, e) && !Starts(r.s, e)
    ensures Rank(Step(r.s, e)) + (if Internal(e) then 1 else 0) <= Rank(r.s) + (if e.Changed? then 3 else 0)
  {
    match e
    case Fire(_) => RankFire(r, e);
    case TakeToken => RankTakeToken(r, e);
    case _ => RankOther(r, e);
  }

  function Internals(es: seq<Event>): nat {
    if es == [] then 0 else (if Internal(es[0]) then 1 else 0) + Internals(es[1..])
  }

  function Changes(es: seq<Event>): nat {
    if es == [] then 0 else (if es[0].Changed? then 1 else 0) + Changes(es[1..])
  }

  lemma {:induction false} StartsGrow(r: Run, es: seq<Event>)
    requires Possible(r, es)
    ensures |Play(r, es).starts| >= |r.starts|
    decreases |es|
  {
    if es != [] {
      StartsGrow(After(r, es[0]), es[1..]);
    }
  }

  /** Whatever else happens, only so many steps of its own can the loop take
      before it starts a sync. */
  lemma {:induction false} SyncComes(r: Run, es: seq<Event>)
    requires Inv(r) && Possible(r, es)
    requires Internals(es) > Rank(r.s) + 3 * Changes(es)
    ensures |Play(r, es).starts| > |r.starts|
    decreases |es|
  {
    var r' := After(r, es[0]);
    InvStep(r, es[0]);
    if Starts(r.s, es[0]) {
      StartsGrow(r', es[1..]);
    } else {
      RankStep(r, es[0]);
      SyncComes(r', es[1..]);
    }
  }

  /** After that time the gap is over. */
  predicate Ripe(s: State, t: nat) {
    s.lastRun.Some? && t >= s.lastRun.value + MIN_SYNC_GAP - s.now
  }

  /** While a change is owed the loop has a step to take, at once or when the gap
      has passed. */
  lemma NeverStuck(r: Run)
    requires Inv(r) && r.owed
    ensures (exists e :: Internal(e) && Enabled(r.s, e))
         || (InGap(r.s) && forall t: nat :: Ripe(r.s, t) ==> exists e :: Internal(e) && Enabled(Step(r.s, Wait(t)), e))
  {
    var s := r.s;
    if s.token {
      assert Enabled(s, TakeToken);
    } else if s.running > 0 {
      assert Enabled(s, SyncEnds);
    } else if s.results > 0 {
      assert Enabled(s, TakeResult);
    } else {
      assert s.timers[0] in s.timers;
      if s.timers[0] <= s.now {
        assert Enabled(s, Fire(0));
      } else {
        forall t: nat | Ripe(s, t)
          ensures exists e :: Internal(e) && Enabled(Step(s, Wait(t)), e)
        {
          assert Enabled(Step(s, Wait(t)), Fire(0));
        }
      }
    }
  }
}
