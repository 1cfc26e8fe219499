/** The sliding-window throttle of sign-in attempts (go/internal/adminweb/limiter.go). */
module LoginLimiter {

  type Hits = map<string, seq<int>>

  const PURGE_ABOVE: nat := 4096

  /** The times after the cutoff. */
  function Recent(ts: seq<int>, cutoff: int): seq<int> {
    if ts == [] then []
    else Recent(ts[..|ts| - 1], cutoff) + if ts[|ts| - 1] > cutoff then [ts[|ts| - 1]] else []
  }

  function Get(hits: Hits, key: string): seq<int> {
    if key in hits then hits[key] else []
  }

  predicate Quiet(ts: seq<int>, cutoff: int) {
    ts == [] || ts[|ts| - 1] <= cutoff
  }

  function Purge(hits: Hits, cutoff: int): Hits {
    map k | k in hits && !Quiet(hits[k], cutoff) :: hits[k]
  }

  /** One attempt against the map of hits. */
  function AllowStep(hits: Hits, window: int, max: nat, key: string, now: int): (Hits, bool) {
    var cutoff := now - window;
    var kept := Recent(Get(hits, key), cutoff);
    if |kept| >= max then (hits[key := kept], false)
    else (PurgeLarge(hits[key := kept + [now]], cutoff), true)
  }

  function PurgeLarge(hits: Hits, cutoff: int): Hits {
    if |hits| > PURGE_ABOVE then Purge(hits, cutoff) else hits
  }

  lemma RecentNext(ts: seq<int>, i: nat, cutoff: int)
    requires i < |ts|
    ensures Recent(ts[..i + 1], cutoff) == Recent(ts[..i], cutoff) + if ts[i] > cutoff then [ts[i]] else []
  {
    assert ts[..i + 1][..i] == ts[..i];
  }

  /** Some first places of an array that later appends may go on filling. */
  datatype Slice = Slice(data: array<int>, len: nat) {
    ghost predicate Fits() {
      len <= data.Length
    }

    ghost function Times(): seq<int>
      requires Fits()
      reads data
    {
      data[..len]
    }

    method HoldsNone(cutoff: int) returns (quiet: bool)
      requires Fits()
      ensures quiet == Quiet(Times(), cutoff)
    {
      quiet := len == 0 || data[len - 1] <= cutoff;
    }
  }

  /** The same array, shortened to the times after the cutoff: each is written at
      or below the place it is read from. */
  method FilterInPlace(s: Slice, cutoff: int) returns (kept: Slice)
    requires s.Fits()
    modifies s.data
    ensures kept.data == s.data && kept.Fits() && kept.Times() == Recent(old(s.Times()), cutoff)
  {
    var data, n := s.data, 0;
    ghost var ts := s.Times();
    for i := 0 to s.len
      invariant n <= i && data[..n] == Recent(ts[..i], cutoff)
      invariant data[i..s.len] == ts[i..]
    {
      assert data[i] == data[i..s.len][0] == ts[i];
      assert data[i + 1..s.len] == ts[i + 1..] by {
        assert data[i + 1..s.len] == data[i..s.len][1..];
      }
      RecentNext(ts, i, cutoff);
      if data[i] > cutoff {
        data[n] := data[i];
        n := n + 1;
      }
    }
    assert ts[..s.len] == ts;
    kept := Slice(data, n);
  }

  /** append: in place while there is room, into a larger array otherwise. */
  method AppendTime(s: Slice, now: int) returns (added: Slice)
    requires s.Fits()
    modifies s.data
    ensures added.Fits() && added.Times() == old(s.Times()) + [now]
    ensures added.data == s.data || fresh(added.data)
  {
    var data := s.data;
    if s.len == data.Length {
      data := new int[2 * s.len + 1];
      for i := 0 to s.len
        invariant data[..i] == s.data[..i]
        modifies data
      {
        data[i] := s.data[i];
      }
    }
    data[s.len] := now;
    added := Slice(data, s.len + 1);
  }

  /** All but rest have been looked at, and the quiet ones of them dropped. */
  ghost predicate Swept(before: map<string, Slice>, after: map<string, Slice>, rest: set<string>, times: Hits,
    cutoff: int) {
    && times.Keys == before.Keys && after.Keys <= before.Keys && rest <= before.Keys
    && (forall k :: k in after ==> after[k] == before[k])
    && forall k :: k in before ==> (k in after <==> k in rest || !Quiet(times[k], cutoff))
  }

  lemma SweptOne(before: map<string, Slice>, after: map<string, Slice>, rest: set<string>, times: Hits, cutoff: int,
    k: string)
    requires Swept(before, after, rest, times, cutoff) && k in rest
    ensures k in after && after[k] == before[k] && k in times
    ensures Swept(before, if Quiet(times[k], cutoff) then after - {k} else after, rest - {k}, times, cutoff)
  {}

  lemma SweptAll(before: map<string, Slice>, after: map<string, Slice>, times: Hits, cutoff: int)
    requires Swept(before, after, {}, times, cutoff)
    ensures after.Keys == Purge(times, cutoff).Keys
    ensures forall k :: k in after ==> k in before && after[k] == before[k] && Purge(times, cutoff)[k] == times[k]
    ensures Distinct(before) ==> Distinct(after)
  {}

  lemma SameSize(m: map<string, Slice>, times: Hits)
    requires m.Keys == times.Keys
    ensures |m| == |times|
  {
    assert |m| == |m.Keys| && |times| == |times.Keys|;
  }

  ghost predicate Distinct(m: map<string, Slice>) {
    forall k, k' :: k in m && k' in m && k != k' ==> m[k].data != m[k'].data
  }

  lemma StepOf(hits: Hits, window: int, max: nat, key: string, now: int, kept: seq<int>)
    requires kept == Recent(Get(hits, key), now - window)
    ensures AllowStep(hits, window, max, key, now)
      == if |kept| >= max then (hits[key := kept], false)
        else (PurgeLarge(hits[key := kept + [now]], now - window), true)
  {}

  class Limiter {
    var hits: map<string, Slice>
    const window: int
    const max: nat
    ghost var Contents: Hits
    ghost var Repr: set<array<int>>

    ghost predicate Recorded()
      reads this, Repr
    {
      && Contents.Keys == hits.Keys
      && forall k :: k in hits ==> hits[k].data in Repr && hits[k].Fits() && hits[k].Times() == Contents[k]
    }

    /** No two addresses share an array. */
    ghost predicate Valid()
      reads this, Repr
    {
      Recorded() && Distinct(hits)
    }

    constructor (window: int, max: nat)
      ensures Valid() && Contents == map[] && Repr == {} && this.window == window && this.max == max
    {
      hits, Contents, Repr := map[], map[], {};
      this.window, this.max := window, max;
    }

    method Sweep(cutoff: int)
      requires Recorded()
      modifies this`hits
      ensures Swept(old(hits), hits, {}, Contents, cutoff)
    {
      ghost var before := hits;
      var rest := hits.Keys;
      while rest != {}
        invariant Swept(before, hits, rest, Contents, cutoff)
      {
        var k :| k in rest;
        SweptOne(before, hits, rest, Contents, cutoff, k);
        var quiet := hits[k].HoldsNone(cutoff);
        if quiet {
          hits := hits - {k};
        }
        rest := rest - {k};
      }
    }

    /** Addresses that have gone quiet are dropped, once there are many. */
    method DropQuiet(cutoff: int)
      requires Valid()
      modifies this
      ensures Valid() && Repr == old(Repr)
      ensures Contents == PurgeLarge(old(Contents), cutoff)
    {
      SameSize(hits, Contents);
      if |hits| > PURGE_ABOVE {
        ghost var before := hits;
        Sweep(cutoff);
        SweptAll(before, hits, Contents, cutoff);
        Contents := Purge(Contents, cutoff);
      }
    }

    /** The slice whose array no other address uses. */
    ghost predicate Own(key: string, s: Slice)
      reads this
    {
      forall k :: k in hits && k != key ==> hits[k].data != s.data
    }

    method Find(key: string) returns (s: Slice)
      requires Valid()
      ensures s.Fits() && Own(key, s) && (s.data in Repr || fresh(s.data))
      ensures s.Times() == Get(Contents, key)
    {
      if key in hits {
        s := hits[key];
      } else {
        var none := new int[0];
        s := Slice(none, 0);
      }
    }

    /** Valid but for what the key's own array holds. */
    ghost predicate ValidBut(key: string)
      reads this, Repr
    {
      && Contents.Keys == hits.Keys
      && (forall k :: k in hits ==> hits[k].data in Repr)
      && (forall k :: k in hits && k != key ==> hits[k].Fits() && hits[k].Times() == Contents[k])
      && Distinct(hits)
    }

    method Trim(key: string, cutoff: int) returns (kept: Slice)
      requires Valid()
      modifies Repr
      ensures ValidBut(key) && kept.Fits() && Own(key, kept) && (kept.data in Repr || fresh(kept.data))
      ensures kept.Times() == Recent(Get(Contents, key), cutoff)
    {
      var entry := Find(key);
      kept := FilterInPlace(entry, cutoff);
    }

    method Put(key: string, s: Slice)
      requires ValidBut(key) && s.Fits() && Own(key, s)
      modifies this
      ensures Valid() && Repr == old(Repr) + {s.data}
      ensures Contents == old(Contents)[key := s.Times()]
    {
      hits := hits[key := s];
      Contents := Contents[key := s.Times()];
      Repr := Repr + {s.data};
    }

    method Add(key: string, s: Slice, now: int, cutoff: int)
      requires ValidBut(key) && s.Fits() && Own(key, s)
      modifies this, s.data
      ensures Valid() && fresh(Repr - old(Repr) - {s.data})
      ensures Contents == PurgeLarge(old(Contents)[key := old(s.Times()) + [now]], cutoff)
    {
      var added := AppendTime(s, now);
      Put(key, added);
      DropQuiet(cutoff);
    }

    method Allow(key: string, now: int) returns (ok: bool)
      requires Valid()
      modifies this, Repr
      ensures Valid() && fresh(Repr - old(Repr))
      ensures (Contents, ok) == AllowStep(old(Contents), window, max, key, now)
    {
      var cutoff := now - window;
      ghost var before := Contents;
      var kept := Trim(key, cutoff);
      ghost var ts := kept.Times();
      assert kept.len == |ts|;
      StepOf(before, window, max, key, now, ts);
      if kept.len >= max {
        Put(key, kept);
        assert Contents == before[key := ts];
        return false;
      }
      Add(key, kept, now, cutoff);
      assert Contents == PurgeLarge(before[key := ts + [now]], cutoff);
      return true;
    }
  }

  // ---- one address ----

  function Count(ts: seq<int>, cutoff: int): nat {
    |Recent(ts, cutoff)|
  }

  /** What an attempt of its own makes of an address's times. */
  function Entry(ts: seq<int>, max: nat, cutoff: int, now: int): seq<int> {
    if Count(ts, cutoff) >= max then Recent(ts, cutoff) else Recent(ts, cutoff) + [now]
  }

  /** Kept as it is, or purged. */
  predicate KeptOrPurged(ts: seq<int>, cutoff: int, ts': seq<int>) {
    ts' == ts || (ts' == [] && Quiet(ts, cutoff))
  }

  /** An address sees its own attempts, and the purges that any attempt may bring. */
  lemma EachAddress(hits: Hits, window: int, max: nat, key: string, now: int, other: string)
    ensures var (hits', ok) := AllowStep(hits, window, max, key, now);
      && ok == (Count(Get(hits, key), now - window) < max)
      && KeptOrPurged(Entry(Get(hits, key), max, now - window, now), now - window, Get(hits', key))
      && (other != key ==> KeptOrPurged(Get(hits, other), now - window, Get(hits', other)))
  {}

  // ---- the limiter that forgets nothing ----

  /** The times of one address after some attempts, its own or others', beside the
      times of all attempts it was ever allowed. */
  datatype Run = Start | Next(before: Run, own: bool, now: int, times: seq<int>, ever: seq<int>) {
    function Times(): seq<int> {
      if Start? then [] else times
    }

    function Ever(): seq<int> {
      if Start? then [] else ever
    }
  }

  /** The full record admits an attempt: fewer than max in the last window. */
  predicate MayProceed(ever: seq<int>, window: int, max: nat, now: int) {
    Count(ever, now - window) < max
  }

  predicate IsRun(r: Run, window: int, max: nat) {
    r.Next? ==>
      && IsRun(r.before, window, max)
      && KeptOrPurged(if r.own then Entry(r.before.Times(), max, r.now - window, r.now) else r.before.Times(),
           r.now - window, r.times)
      && r.ever == if r.own && MayProceed(r.before.Ever(), window, max, r.now) then r.before.Ever() + [r.now]
        else r.before.Ever()
  }

  /** No attempt of the run comes after now, and none before an earlier one. */
  predicate ClockRuns(r: Run, now: int) {
    r.Next? ==> r.now <= now && ClockRuns(r.before, r.now)
  }

  // ---- from the map to one address ----

  datatype Attempt = Attempt(key: string, now: int)

  /** The map after a history of attempts. */
  function HitsAfter(h: seq<Attempt>, window: int, max: nat): Hits {
    if h == [] then map[]
    else AllowStep(HitsAfter(h[..|h| - 1], window, max), window, max, h[|h| - 1].key, h[|h| - 1].now).0
  }

  /** The same history as one address sees it. */
  function AddressRun(h: seq<Attempt>, window: int, max: nat, key: string): Run {
    if h == [] then Start
    else
      var before, a := AddressRun(h[..|h| - 1], window, max, key), h[|h| - 1];
      Next(before, a.key == key, a.now, Get(HitsAfter(h, window, max), key),
        if a.key == key && MayProceed(before.Ever(), window, max, a.now) then before.Ever() + [a.now]
          else before.Ever())
  }

  /** No attempt comes after now, and none before an earlier one. */
  predicate InOrder(h: seq<Attempt>, now: int) {
    h != [] ==> h[|h| - 1].now <= now && InOrder(h[..|h| - 1], h[|h| - 1].now)
  }

  lemma {:induction false} EveryAddressRuns(h: seq<Attempt>, window: int, max: nat, key: string, now: int)
    ensures AddressRun(h, window, max, key).Times() == Get(HitsAfter(h, window, max), key)
    ensures IsRun(AddressRun(h, window, max, key), window, max)
    ensures InOrder(h, now) ==> ClockRuns(AddressRun(h, window, max, key), now)
  {
    if h != [] {
      var earlier, a := h[..|h| - 1], h[|h| - 1];
      EveryAddressRuns(earlier, window, max, key, a.now);
      EachAddress(HitsAfter(earlier, window, max), window, max, a.key, a.now, key);
    }
  }

  // ---- what is forgotten does not matter ----

  /** In order, and none after now. */
  predicate SortedTo(ts: seq<int>, now: int) {
    ts != [] ==> ts[|ts| - 1] <= now && SortedTo(ts[..|ts| - 1], ts[|ts| - 1])
  }

  lemma RecentSnoc(ts: seq<int>, x: int, cutoff: int)
    ensures Recent(ts + [x], cutoff) == Recent(ts, cutoff) + if x > cutoff then [x] else []
  {
    assert (ts + [x])[..|ts|] == ts;
  }

  lemma {:induction false} CountTwice(ts: seq<int>, earlier: int, later: int)
    requires earlier <= later
    ensures Count(Recent(ts, earlier), later) == Count(ts, later)
  {
    if ts != [] {
      var init, x := ts[..|ts| - 1], ts[|ts| - 1];
      CountTwice(init, earlier, later);
      RecentSnoc(Recent(init, earlier), x, later);
      assert Recent(init, earlier) + [] == Recent(init, earlier);
    }
  }

  lemma {:induction false} RecentSorted(ts: seq<int>, cutoff: int, now: int)
    requires SortedTo(ts, now)
    ensures SortedTo(Recent(ts, cutoff), now)
  {
    if ts != [] {
      var init, x := ts[..|ts| - 1], ts[|ts| - 1];
      RecentSorted(init, cutoff, x);
      assert Recent(init, cutoff) + [] == Recent(init, cutoff);
    }
  }

  lemma {:induction false} QuietIsEmpty(ts: seq<int>, cutoff: int)
    requires SortedTo(ts, cutoff)
    ensures Recent(ts, cutoff) == []
  {
    if ts != [] {
      QuietIsEmpty(ts[..|ts| - 1], cutoff);
    }
  }

  lemma EntrySorted(ts: seq<int>, max: nat, cutoff: int, now: int)
    requires SortedTo(ts, now)
    ensures SortedTo(Entry(ts, max, cutoff, now), now)
  {
    RecentSorted(ts, cutoff, now);
  }

  lemma PurgedCount(ts: seq<int>, cutoff: int, now: int, ts': seq<int>, c: int)
    requires SortedTo(ts, now) && KeptOrPurged(ts, cutoff, ts') && cutoff <= c
    ensures Count(ts', c) == Count(ts, c)
  {
    if Quiet(ts, cutoff) {
      QuietIsEmpty(ts, c);
    }
  }

  lemma EntryCount(ts: seq<int>, all: seq<int>, max: nat, cutoff: int, now: int, c: int)
    requires Count(ts, cutoff) == Count(all, cutoff) && Count(ts, c) == Count(all, c) && cutoff <= c
    ensures Count(Entry(ts, max, cutoff, now), c) == Count(if Count(all, cutoff) < max then all + [now] else all, c)
  {
    CountTwice(ts, cutoff, c);
    RecentSnoc(Recent(ts, cutoff), now, c);
    RecentSnoc(all, now, c);
  }

  lemma StepSorted(ts: seq<int>, own: bool, max: nat, cutoff: int, now: int, ts': seq<int>, later: int)
    requires SortedTo(ts, now) && now <= later
    requires KeptOrPurged(if own then Entry(ts, max, cutoff, now) else ts, cutoff, ts')
    ensures SortedTo(ts', later)
  {
    EntrySorted(ts, max, cutoff, now);
  }

  lemma {:induction false} RunSorted(r: Run, window: int, max: nat, now: int)
    requires IsRun(r, window, max) && ClockRuns(r, now)
    ensures SortedTo(r.Times(), now)
  {
    if r.Next? {
      RunSorted(r.before, window, max, r.now);
      StepSorted(r.before.Times(), r.own, max, r.now - window, r.now, r.times, now);
    }
  }

  lemma StepAgrees(ts: seq<int>, all: seq<int>, own: bool, max: nat, cutoff: int, now: int, ts': seq<int>,
    all': seq<int>, c: int)
    requires SortedTo(ts, now) && cutoff <= c
    requires Count(ts, cutoff) == Count(all, cutoff) && Count(ts, c) == Count(all, c)
    requires KeptOrPurged(if own then Entry(ts, max, cutoff, now) else ts, cutoff, ts')
    requires all' == if own && Count(all, cutoff) < max then all + [now] else all
    ensures Count(ts', c) == Count(all', c)
  {
    EntrySorted(ts, max, cutoff, now);
    EntryCount(ts, all, max, cutoff, now, c);
    PurgedCount(if own then Entry(ts, max, cutoff, now) else ts, cutoff, now, ts', c);
  }

  /** The times kept agree with the full record on everything after the cutoff of
      the next attempt. */
  lemma {:induction false} RunAgrees(r: Run, window: int, max: nat, now: int)
    requires IsRun(r, window, max) && ClockRuns(r, now)
    ensures Count(r.Times(), now - window) == Count(r.Ever(), now - window)
  {
    if r.Next? {
      RunAgrees(r.before, window, max, r.now);
      ClockLater(r.before, r.now, now);
      RunAgrees(r.before, window, max, now);
      RunSorted(r.before, window, max, r.now);
      NextAgrees(r, r.before.Times(), r.before.Ever(), window, max, now);
    }
  }

  lemma NextAgrees(r: Run, ts: seq<int>, all: seq<int>, window: int, max: nat, now: int)
    requires r.Next? && IsRun(r, window, max) && r.now <= now
    requires ts == r.before.Times() && all == r.before.Ever() && SortedTo(ts, r.now)
    requires Count(ts, r.now - window) == Count(all, r.now - window)
      && Count(ts, now - window) == Count(all, now - window)
    ensures Count(r.times, now - window) == Count(r.ever, now - window)
  {
    StepAgrees(ts, all, r.own, max, r.now - window, r.now, r.times, r.ever, now - window);
  }

  lemma ClockLater(r: Run, now: int, later: int)
    requires ClockRuns(r, now) && now <= later
    ensures ClockRuns(r, later)
  {}

  lemma SameAnswer(r: Run, window: int, max: nat, hits: Hits, key: string, now: int)
    requires IsRun(r, window, max) && ClockRuns(r, now) && Get(hits, key) == r.Times()
    ensures AllowStep(hits, window, max, key, now).1 <==> MayProceed(r.Ever(), window, max, now)
  {
    RunAgrees(r, window, max, now);
    EachAddress(hits, window, max, key, now, key);
  }

  /** With a clock that does not run back, an attempt is allowed exactly when
      fewer than max were allowed from its address in the last window: forgetting
      old times and quiet addresses never changes an answer. */
  lemma LimiterIsExact(h: seq<Attempt>, window: int, max: nat, a: Attempt)
    requires InOrder(h, a.now)
    ensures AllowStep(HitsAfter(h, window, max), window, max, a.key, a.now).1
      <==> MayProceed(AddressRun(h, window, max, a.key).Ever(), window, max, a.now)
  {
    EveryAddressRuns(h, window, max, a.key, a.now);
    SameAnswer(AddressRun(h, window, max, a.key), window, max, HitsAfter(h, window, max), a.key, a.now);
  }

  // ---- at most max in any window ----

  /** How many of the times lie in the window that ends at t. */
  function InWindow(ts: seq<int>, window: int, t: int): nat {
    if ts == [] then 0
    else InWindow(ts[..|ts| - 1], window, t) + if t - window < ts[|ts| - 1] <= t then 1 else 0
  }

  /** Each time was allowed when it came. */
  predicate Bounded(ts: seq<int>, window: int, max: nat) {
    ts == [] || (Bounded(ts[..|ts| - 1], window, max) && |Recent(ts, ts[|ts| - 1] - window)| <= max)
  }

  lemma {:induction false} RecentGrows(ts: seq<int>, earlier: int, later: int)
    requires earlier <= later
    ensures |Recent(ts, later)| <= |Recent(ts, earlier)|
  {
    if ts != [] {
      RecentGrows(ts[..|ts| - 1], earlier, later);
    }
  }

  lemma {:induction false} WindowIsRecent(ts: seq<int>, window: int, t: int)
    ensures InWindow(ts, window, t) <= |Recent(ts, t - window)|
  {
    if ts != [] {
      WindowIsRecent(ts[..|ts| - 1], window, t);
    }
  }

  lemma {:induction false} BoundedWindows(ts: seq<int>, window: int, max: nat, t: int)
    requires Bounded(ts, window, max)
    ensures InWindow(ts, window, t) <= max
  {
    if ts != [] {
      var x := ts[|ts| - 1];
      if x > t {
        BoundedWindows(ts[..|ts| - 1], window, max, t);
      } else {
        WindowIsRecent(ts, window, t);
        RecentGrows(ts, x - window, t - window);
      }
    }
  }

  lemma {:induction false} RunIsBounded(r: Run, window: int, max: nat)
    requires IsRun(r, window, max)
    ensures Bounded(r.Ever(), window, max)
  {
    if r.Next? {
      RunIsBounded(r.before, window, max);
      StepIsBounded(r.before.Ever(), r.own, r.now, window, max, r.ever);
    }
  }

  lemma StepIsBounded(ever: seq<int>, own: bool, now: int, window: int, max: nat, ever': seq<int>)
    requires Bounded(ever, window, max)
    requires ever' == if own && MayProceed(ever, window, max, now) then ever + [now] else ever
    ensures Bounded(ever', window, max)
  {}

  /** However the attempts come, no window ever holds more than max allowed ones
      from one address. */
  lemma AtMostMax(h: seq<Attempt>, window: int, max: nat, key: string, t: int)
    ensures InWindow(AddressRun(h, window, max, key).Ever(), window, t) <= max
  {
    EveryAddressRuns(h, window, max, key, 0);
    RunIsBounded(AddressRun(h, window, max, key), window, max);
    BoundedWindows(AddressRun(h, window, max, key).Ever(), window, max, t);
  }

  // ---- what is dropped ----

  /** For times in order, the last one alone tells whether any is recent. */
  lemma QuietMeansNothing(ts: seq<int>, cutoff: int, now: int)
    requires SortedTo(ts, now)
    ensures Quiet(ts, cutoff) <==> Recent(ts, cutoff) == []
  {
    if Quiet(ts, cutoff) {
      SortedEarlier(ts, cutoff, now);
      QuietIsEmpty(ts, cutoff);
    }
  }

  lemma SortedEarlier(ts: seq<int>, earlier: int, now: int)
    requires SortedTo(ts, now) && (ts == [] || ts[|ts| - 1] <= earlier)
    ensures SortedTo(ts, earlier)
  {}

  /** An allowed attempt drops the quiet addresses when there are more than 4096 with its
      own, and none otherwise; a refused one drops none. */
  lemma DroppedExactly(hits: Hits, window: int, max: nat, key: string, now: int, other: string)
    requires other in hits && other != key
    ensures var (hits', ok) := AllowStep(hits, window, max, key, now);
      other !in hits' <==> ok && |hits.Keys + {key}| > 4096 && Quiet(hits[other], now - window)
  {
    var kept := Recent(Get(hits, key), now - window);
    var added := hits[key := kept + [now]];
    assert added.Keys == hits.Keys + {key};
    assert |added| == |added.Keys|;
  }
}
