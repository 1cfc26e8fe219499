/** The incremental upload of session files (go/internal/agentcore/collect.go). */
module Collector {
  import opened Text

  /** Modification time and size. */
  datatype Sig = Sig(mtime: int, size: int)

  /** What becomes of a file the pass tries to upload. */
  datatype Fate = OpenFails | ReadFails | PutFails | Uploads

  /** A listed file, with its content and its UTC date. */
  datatype File = File(path: string, sig: Sig, day: string, data: string, fate: Fate)

  /** One pass: the listing, if it succeeds, the clock, the settings, and whether
      the state file can be read and written. */
  datatype Pass = Pass(files: Option<seq<File>>, now: int, quietSeconds: int, since: string, loads: bool, saves: bool)

  /** An upload, with the signature it was made for, and whether the pass that
      made it also wrote its state file. */
  datatype Put = Put(path: string, sig: Sig, data: string, kept: bool)

  /** The state file, and every upload so far. */
  datatype World = World(saved: map<string, Sig>, puts: seq<Put>)

  const DEFAULT_QUIET: int := 60
  const SECOND: int := 1_000_000_000

  function Quiet(p: Pass): int {
    (if p.quietSeconds <= 0 then DEFAULT_QUIET else p.quietSeconds) * SECOND
  }

  /** Older than the cut-off date. */
  predicate TooOld(p: Pass, f: File) {
    p.since != "" && Before(f.day, p.since)
  }

  predicate Unchanged(state: map<string, Sig>, f: File) {
    f.path in state && state[f.path] == f.sig
  }

  predicate Settling(p: Pass, f: File) {
    p.now - f.sig.mtime < Quiet(p)
  }

  predicate Taken(state: map<string, Sig>, p: Pass, f: File) {
    !TooOld(p, f) && !Unchanged(state, f) && !Settling(p, f) && f.fate == Uploads
  }

  function Visit(w: World, p: Pass, f: File): World {
    if Taken(w.saved, p, f) then World(w.saved[f.path := f.sig], w.puts + [Put(f.path, f.sig, f.data, p.saves)]) else w
  }

  function VisitAll(w: World, p: Pass, files: seq<File>): World
    decreases |files|
  {
    if files == [] then w else VisitAll(Visit(w, p, files[0]), p, files[1..])
  }

  function Paths(files: seq<File>): set<string> {
    set f | f in files :: f.path
  }

  /** A state file that cannot be read counts as empty. */
  function Loaded(w: World, p: Pass): World {
    if p.loads then w else World(map[], w.puts)
  }

  function CollectOnce(w: World, p: Pass): World {
    if p.files.None? then w
    else
      var after := VisitAll(Loaded(w, p), p, p.files.value);
      World(if p.saves then after.saved - (after.saved.Keys - Paths(p.files.value)) else w.saved, after.puts)
  }

  class Uploader {
    var saved: map<string, Sig>
    var puts: seq<Put>

    method CollectOnePass(p: Pass) returns (uploaded: nat)
      modifies this
      ensures World(saved, puts) == CollectOnce(old(World(saved, puts)), p)
      ensures |puts| == old(|puts|) + uploaded
    {
      uploaded := 0;
      if p.files.None? {
        return;
      }
      var files := p.files.value;
      var state := if p.loads then saved else map[];
      var seen := {};
      ghost var before := World(state, puts);
      assert files[0..] == files;
      for i := 0 to |files|
        invariant seen == Paths(files[..i]) && saved == old(saved)
        invariant VisitAll(World(state, puts), p, files[i..]) == VisitAll(before, p, files)
        invariant |puts| == old(|puts|) + uploaded
      {
        var f := files[i];
        seen := seen + {f.path};
        assert files[..i + 1] == files[..i] + [f];
        if p.since != "" && Before(f.day, p.since) {
          continue;
        }
        if f.path in state && state[f.path] == f.sig {
          continue;
        }
        if p.now - f.sig.mtime < Quiet(p) {
          continue;
        }
        if f.fate != Uploads {
          continue;
        }
        puts := puts + [Put(f.path, f.sig, f.data, p.saves)];
        state := state[f.path := f.sig];
        uploaded := uploaded + 1;
      }
      assert files[|files|..] == [] && files[..|files|] == files;
      state := Forget(state, seen);
      if p.saves {
        saved := state;
      }
    }

    /** Deleted sources are forgotten; what was uploaded of them stays. */
    method Forget(all: map<string, Sig>, seen: set<string>) returns (state: map<string, Sig>)
      ensures state == all - (all.Keys - seen)
    {
      state := all;
      var rest := all.Keys;
      while rest != {}
        invariant rest <= all.Keys
        invariant state == all - ((all.Keys - rest) - seen)
      {
        var path :| path in rest;
        if path !in seen {
          state := state - {path};
        }
        rest := rest - {path};
      }
    }
  }

  // ---- agreement with the store ----

  function LastPut(puts: seq<Put>, path: string): Option<Put> {
    if puts == [] then None
    else if puts[|puts| - 1].path == path then Some(puts[|puts| - 1])
    else LastPut(puts[..|puts| - 1], path)
  }

  /** What the store holds under a path. */
  function Stored(w: World, path: string): Option<string> {
    var put := LastPut(w.puts, path);
    if put.Some? then Some(put.value.data) else None
  }

  /** Of one path, a signature fixes the content. */
  predicate FixesContent(files: seq<File>) {
    forall i, j :: 0 <= i < j < |files| && files[i].path == files[j].path && files[i].sig == files[j].sig
      ==> files[i].data == files[j].data
  }

  function Found(p: Pass): seq<File> {
    if p.files.Some? then p.files.value else []
  }

  function Listed(ps: seq<Pass>): seq<File> {
    if ps == [] then [] else Found(ps[0]) + Listed(ps[1..])
  }

  function Play(w: World, ps: seq<Pass>): World
    decreases |ps|
  {
    if ps == [] then w else Play(CollectOnce(w, ps[0]), ps[1..])
  }

  lemma LastPutSnoc(puts: seq<Put>, put: Put, path: string)
    ensures LastPut(puts + [put], path) == if put.path == path then Some(put) else LastPut(puts, path)
  {
    assert (puts + [put])[..|puts|] == puts;
  }

  /** Every recorded path was uploaded, and if the pass of its last upload wrote
      the state file, the record is of that upload. */
  predicate Recorded(m: map<string, Sig>, puts: seq<Put>) {
    forall path :: path in m ==>
      LastPut(puts, path).Some? && (LastPut(puts, path).value.kept ==> LastPut(puts, path).value.sig == m[path])
  }

  /** What was uploaded under a signature is what a file to come holds under it. */
  predicate SameContent(puts: seq<Put>, future: seq<File>) {
    forall put, f :: put in puts && f in future && put.path == f.path && put.sig == f.sig ==> put.data == f.data
  }

  lemma FixesLater(f: File, future: seq<File>)
    requires FixesContent([f] + future)
    ensures FixesContent(future)
    ensures forall g :: g in future && g.path == f.path && g.sig == f.sig ==> g.data == f.data
  {
    var all := [f] + future;
    assert all[0] == f && forall i :: 0 <= i < |future| ==> future[i] == all[i + 1];
  }

  lemma VisitRecords(w: World, p: Pass, f: File, future: seq<File>, m: map<string, Sig>)
    requires Recorded(w.saved, w.puts) && (!p.saves ==> Recorded(m, w.puts))
    requires FixesContent([f] + future) && SameContent(w.puts, [f] + future)
    ensures var w' := Visit(w, p, f);
      Recorded(w'.saved, w'.puts) && (!p.saves ==> Recorded(m, w'.puts)) && SameContent(w'.puts, future)
    ensures FixesContent(future)
  {
    FixesLater(f, future);
    var put := Put(f.path, f.sig, f.data, p.saves);
    forall path
      ensures LastPut(w.puts + [put], path) == if f.path == path then Some(put) else LastPut(w.puts, path)
    {
      LastPutSnoc(w.puts, put, path);
    }
  }

  lemma {:induction false} VisitAllRecords(w: World, p: Pass, files: seq<File>, future: seq<File>, m: map<string, Sig>)
    requires Recorded(w.saved, w.puts) && (!p.saves ==> Recorded(m, w.puts))
    requires FixesContent(files + future) && SameContent(w.puts, files + future)
    ensures var w' := VisitAll(w, p, files);
      Recorded(w'.saved, w'.puts) && (!p.saves ==> Recorded(m, w'.puts)) && SameContent(w'.puts, future)
    ensures FixesContent(future)
    decreases |files|
  {
    if files == [] {
      assert files + future == future;
    } else {
      assert files + future == [files[0]] + (files[1..] + future);
      VisitRecords(w, p, files[0], files[1..] + future, m);
      VisitAllRecords(Visit(w, p, files[0]), p, files[1..], future, m);
    }
  }

  lemma PassRecords(w: World, p: Pass, future: seq<File>)
    requires Recorded(w.saved, w.puts)
    requires FixesContent(Found(p) + future) && SameContent(w.puts, Found(p) + future)
    ensures var w' := CollectOnce(w, p);
      Recorded(w'.saved, w'.puts) && SameContent(w'.puts, future)
    ensures FixesContent(future)
  {
    if p.files.None? {
      assert Found(p) + future == future;
    } else {
      VisitAllRecords(Loaded(w, p), p, p.files.value, future, w.saved);
    }
  }

  lemma {:induction false} PassesRecord(w: World, ps: seq<Pass>, future: seq<File>)
    requires Recorded(w.saved, w.puts)
    requires FixesContent(Listed(ps) + future) && SameContent(w.puts, Listed(ps) + future)
    ensures var w' := Play(w, ps);
      Recorded(w'.saved, w'.puts) && SameContent(w'.puts, future)
    decreases |ps|
  {
    if ps == [] {
      assert Listed(ps) + future == future;
    } else {
      assert Listed(ps) + future == Found(ps[0]) + (Listed(ps[1..]) + future);
      PassRecords(w, ps[0], Listed(ps[1..]) + future);
      PassesRecord(CollectOnce(w, ps[0]), ps[1..], future);
    }
  }

  lemma {:induction false} LastPutIsIn(puts: seq<Put>, path: string)
    requires LastPut(puts, path).Some?
    ensures LastPut(puts, path).value in puts && LastPut(puts, path).value.path == path
  {
    if puts[|puts| - 1].path != path {
      LastPutIsIn(puts[..|puts| - 1], path);
    }
  }

  // ---- the pass that stored a path last ----

  /** What one pass uploads. */
  function Uploaded(w: World, p: Pass): seq<Put> {
    var after := CollectOnce(w, p).puts;
    if |w.puts| <= |after| then after[|w.puts|..] else []
  }

  /** The last upload that pass i of a run makes under a path. */
  function Took(w: World, ps: seq<Pass>, i: nat, path: string): Option<Put>
    requires i < |ps|
    decreases i
  {
    if i == 0 then LastPut(Uploaded(w, ps[0]), path) else Took(CollectOnce(w, ps[0]), ps[1..], i - 1, path)
  }

  lemma {:induction false} VisitAllAdds(w: World, p: Pass, files: seq<File>)
    ensures |w.puts| <= |VisitAll(w, p, files).puts|
    ensures VisitAll(w, p, files).puts[..|w.puts|] == w.puts
    ensures forall put :: put in VisitAll(w, p, files).puts[|w.puts|..] ==> put.kept == p.saves
    decreases |files|
  {
    if files != [] {
      var w', after := Visit(w, p, files[0]), VisitAll(w, p, files).puts;
      VisitAllAdds(w', p, files[1..]);
      assert after[..|w.puts|] == after[..|w'.puts|][..|w.puts|] == w.puts;
      assert after[|w.puts|..] == after[..|w'.puts|][|w.puts|..] + after[|w'.puts|..];
    }
  }

  lemma PassAdds(w: World, p: Pass)
    ensures CollectOnce(w, p).puts == w.puts + Uploaded(w, p)
    ensures forall put :: put in Uploaded(w, p) ==> put.kept == p.saves
  {
    if p.files.Some? {
      VisitAllAdds(Loaded(w, p), p, p.files.value);
    }
  }

  lemma {:induction false} LastPutConcat(a: seq<Put>, b: seq<Put>, path: string)
    ensures LastPut(a + b, path) == if LastPut(b, path).Some? then LastPut(b, path) else LastPut(a, path)
  {
    if b == [] {
      assert a + b == a;
    } else {
      assert a + b == (a + b[..|b| - 1]) + [b[|b| - 1]];
      LastPutSnoc(a + b[..|b| - 1], b[|b| - 1], path);
      LastPutConcat(a, b[..|b| - 1], path);
    }
  }

  lemma {:induction false} TookKept(w: World, ps: seq<Pass>, i: nat, path: string)
    requires i < |ps| && Took(w, ps, i, path).Some?
    ensures Took(w, ps, i, path).value.kept == ps[i].saves
    decreases i
  {
    if i == 0 {
      PassAdds(w, ps[0]);
      LastPutIsIn(Uploaded(w, ps[0]), path);
    } else {
      TookKept(CollectOnce(w, ps[0]), ps[1..], i - 1, path);
    }
  }

  /** No pass from place i on uploads the path. */
  predicate NoneFrom(w: World, ps: seq<Pass>, i: nat, path: string)
    requires i <= |ps|
  {
    forall j :: i <= j < |ps| ==> Took(w, ps, j, path).None?
  }

  lemma NoneShift(w: World, ps: seq<Pass>, i: nat, path: string)
    requires i < |ps| && NoneFrom(CollectOnce(w, ps[0]), ps[1..], i, path)
    ensures NoneFrom(w, ps, i + 1, path)
  {
    forall j | i + 1 <= j < |ps|
      ensures Took(w, ps, j, path).None?
    {
      assert Took(w, ps, j, path) == Took(CollectOnce(w, ps[0]), ps[1..], j - 1, path);
    }
  }

  /** The pass whose upload the store holds, or -1 when no pass uploads the path. */
  lemma {:induction false} LastPass(w: World, ps: seq<Pass>, path: string) returns (i: int)
    ensures -1 <= i < |ps| && NoneFrom(w, ps, i + 1, path)
    ensures LastPut(Play(w, ps).puts, path) == if i == -1 then LastPut(w.puts, path) else Took(w, ps, i, path)
    ensures i >= 0 ==> Took(w, ps, i, path).Some?
    decreases |ps|
  {
    i := -1;
    if ps != [] {
      var w' := CollectOnce(w, ps[0]);
      PassAdds(w, ps[0]);
      LastPutConcat(w.puts, Uploaded(w, ps[0]), path);
      var k := LastPass(w', ps[1..], path);
      NoneShift(w, ps, k + 1, path);
      if k >= 0 {
        i := k + 1;
      } else if Took(w, ps, 0, path).Some? {
        i := 0;
      }
    }
  }

  /** Pass i uploads the path with other content than f's and cannot write its state
      file, and no later pass uploads the path. */
  predicate LostUpload(ps: seq<Pass>, i: nat, f: File)
    requires i < |ps|
  {
    var put := Took(World(map[], []), ps, i, f.path);
    put.Some? && put.value.data != f.data && !ps[i].saves && NoneFrom(World(map[], []), ps, i + 1, f.path)
  }

  lemma LostIsLast(w: World, ps: seq<Pass>, path: string, i: nat, k: int)
    requires i < |ps| && Took(w, ps, i, path).Some? && NoneFrom(w, ps, i + 1, path)
    requires -1 <= k < |ps| && NoneFrom(w, ps, k + 1, path) && (k >= 0 ==> Took(w, ps, k, path).Some?)
    ensures k == i
  {}

  /** Over any passes, with any of their steps failing: when the recorded signature
      of a file is its current one, the store holds its current content, unless
      and only unless a pass that could not write its state file uploaded other
      content, and no later pass uploaded the path. */
  lemma {:induction false} RecordedIsStored(ps: seq<Pass>, f: File)
    requires FixesContent(Listed(ps) + [f])
    ensures var w := Play(World(map[], []), ps);
      Unchanged(w.saved, f) ==>
        (Stored(w, f.path) == Some(f.data) <==> !exists i :: 0 <= i < |ps| && LostUpload(ps, i, f))
  {
    var w0 := World(map[], []);
    var w := Play(w0, ps);
    PassesRecord(w0, ps, [f]);
    if Unchanged(w.saved, f) {
      LastPutIsIn(w.puts, f.path);
      assert f in [f];
      var k := LastPass(w0, ps, f.path);
      TookKept(w0, ps, k, f.path);
      if Stored(w, f.path) != Some(f.data) {
        assert LostUpload(ps, k, f);
      }
      if i :| 0 <= i < |ps| && LostUpload(ps, i, f) {
        LostIsLast(w0, ps, f.path, i, k);
      }
    }
  }

  // ---- two ways to keep every record ----

  /** When every pass writes its state file, whatever else fails and however
      signatures move, a record is never wrong. */
  lemma SavedRunsAgree(ps: seq<Pass>, f: File)
    requires FixesContent(Listed(ps) + [f]) && forall p :: p in ps ==> p.saves
    ensures var w := Play(World(map[], []), ps);
      Unchanged(w.saved, f) ==> Stored(w, f.path) == Some(f.data)
  {
    RecordedIsStored(ps, f);
    assert forall i :: 0 <= i < |ps| ==> ps[i] in ps;
  }

  /** A later signature has a later time, or the same and no smaller size. */
  predicate Le(a: Sig, b: Sig) {
    a.mtime < b.mtime || (a.mtime == b.mtime && a.size <= b.size)
  }

  predicate Follows(sig: Sig, data: string, f: File) {
    Le(sig, f.sig) && (sig == f.sig ==> data == f.data)
  }

  /** Of one path, signatures do not go back, and each fixes the content. */
  predicate Forward(files: seq<File>) {
    forall i, j :: 0 <= i < j < |files| && files[i].path == files[j].path
      ==> Follows(files[i].sig, files[i].data, files[j])
  }

  /** Every recorded signature was uploaded, or a later one was. */
  predicate Covered(m: map<string, Sig>, puts: seq<Put>) {
    forall path :: path in m ==> LastPut(puts, path).Some? && Le(m[path], LastPut(puts, path).value.sig)
  }

  /** No file to come is older than what was uploaded for its path. */
  predicate Behind(puts: seq<Put>, future: seq<File>) {
    forall i :: 0 <= i < |future| && LastPut(puts, future[i].path).Some?
      ==> Follows(LastPut(puts, future[i].path).value.sig, LastPut(puts, future[i].path).value.data, future[i])
  }

  lemma VisitKeeps(w: World, p: Pass, f: File, future: seq<File>, m: map<string, Sig>)
    requires Covered(w.saved, w.puts) && Covered(m, w.puts)
    requires Forward([f] + future) && Behind(w.puts, [f] + future)
    ensures var w' := Visit(w, p, f);
      Covered(w'.saved, w'.puts) && Covered(m, w'.puts) && Behind(w'.puts, future)
    ensures Forward(future)
  {
    var all := [f] + future;
    assert all[0] == f && forall i :: 0 <= i < |future| ==> future[i] == all[i + 1];
    var put := Put(f.path, f.sig, f.data, p.saves);
    forall path
      ensures LastPut(w.puts + [put], path) == if f.path == path then Some(put) else LastPut(w.puts, path)
    {
      LastPutSnoc(w.puts, put, path);
    }
  }

  lemma {:induction false} VisitAllKeeps(w: World, p: Pass, files: seq<File>, future: seq<File>, m: map<string, Sig>)
    requires Covered(w.saved, w.puts) && Covered(m, w.puts)
    requires Forward(files + future) && Behind(w.puts, files + future)
    ensures var w' := VisitAll(w, p, files);
      Covered(w'.saved, w'.puts) && Covered(m, w'.puts) && Behind(w'.puts, future)
    ensures Forward(future)
    decreases |files|
  {
    if files == [] {
      assert files + future == future;
    } else {
      assert files + future == [files[0]] + (files[1..] + future);
      VisitKeeps(w, p, files[0], files[1..] + future, m);
      VisitAllKeeps(Visit(w, p, files[0]), p, files[1..], future, m);
    }
  }

  lemma {:induction false} PassesKeep(w: World, ps: seq<Pass>, future: seq<File>)
    requires Covered(w.saved, w.puts)
    requires Forward(Listed(ps) + future) && Behind(w.puts, Listed(ps) + future)
    ensures var w' := Play(w, ps);
      Covered(w'.saved, w'.puts) && Behind(w'.puts, future)
    decreases |ps|
  {
    if ps == [] {
      assert Listed(ps) + future == future;
    } else {
      var p := ps[0];
      var files := Found(p);
      assert Listed(ps) + future == files + (Listed(ps[1..]) + future);
      VisitAllKeeps(Loaded(w, p), p, files, Listed(ps[1..]) + future, w.saved);
      PassesKeep(CollectOnce(w, p), ps[1..], future);
    }
  }

  /** When the signatures of a path do not go back, whatever fails, lost state files
      included, a record is never wrong. */
  lemma ForwardRunsAgree(ps: seq<Pass>, f: File)
    requires Forward(Listed(ps) + [f])
    ensures var w := Play(World(map[], []), ps);
      Unchanged(w.saved, f) ==> Stored(w, f.path) == Some(f.data)
  {
    PassesKeep(World(map[], []), ps, [f]);
    assert [f][0] == f;
  }

  /** A file that went back to an earlier signature would break it: the upload of
      the later content is kept although its record was lost. */
  lemma GoingBackBreaksIt(early: Sig, late: Sig, path: string)
    requires early != late
    ensures var a, b := File(path, early, "", "a", Uploads), File(path, late, "", "b", Uploads);
      var now := (if early.mtime > late.mtime then early.mtime else late.mtime) + DEFAULT_QUIET * SECOND;
      var w := Play(World(map[], []),
        [Pass(Some([a]), now, 0, "", true, true), Pass(Some([b]), now, 0, "", true, false)]);
      Unchanged(w.saved, a) && Stored(w, path) == Some("b") && "a" != "b"
  {
    var a, b := File(path, early, "", "a", Uploads), File(path, late, "", "b", Uploads);
    var now := (if early.mtime > late.mtime then early.mtime else late.mtime) + DEFAULT_QUIET * SECOND;
    var p, q := Pass(Some([a]), now, 0, "", true, true), Pass(Some([b]), now, 0, "", true, false);
    var w0 := World(map[], []);
    assert [a][1..] == [] && [b][1..] == [] && [p, q][1..] == [q] && [q][1..] == [];
    var w1 := World(map[path := early], [Put(path, early, "a", true)]);
    assert VisitAll(w0, p, [a]) == VisitAll(w1, p, []);
    assert CollectOnce(w0, p) == w1 by {
      assert Paths([a]) == {path};
      assert w1.saved - {} == w1.saved;
    }
    var w2 := World(map[path := late], w1.puts + [Put(path, late, "b", false)]);
    assert VisitAll(w1, q, [b]) == VisitAll(w2, q, []);
    assert CollectOnce(w1, q) == World(w1.saved, w2.puts);
    assert Play(w0, [p, q]) == Play(w1, [q]) == Play(World(w1.saved, w2.puts), []);
    LastPutSnoc(w1.puts, Put(path, late, "b", false), path);
    assert "a"[0] != "b"[0];
  }

  // ---- convergence ----

  predicate Distinct(files: seq<File>) {
    forall i, j :: 0 <= i < j < |files| ==> files[i].path != files[j].path
  }

  lemma {:induction false} OthersUntouched(w: World, p: Pass, files: seq<File>, path: string)
    requires forall i :: 0 <= i < |files| ==> files[i].path != path
    ensures var w' := VisitAll(w, p, files);
      && (path in w'.saved <==> path in w.saved) && (path in w.saved ==> w'.saved[path] == w.saved[path])
      && LastPut(w'.puts, path) == LastPut(w.puts, path)
    decreases |files|
  {
    if files != [] {
      var f := files[0];
      LastPutSnoc(w.puts, Put(f.path, f.sig, f.data, p.saves), path);
      OthersUntouched(Visit(w, p, f), p, files[1..], path);
    }
  }

  /** What the pass leaves recorded for the file at place k, and whether it uploads it. */
  lemma {:induction false} EachFile(w: World, p: Pass, files: seq<File>, k: nat)
    requires Distinct(files) && k < |files|
    ensures var w', f := VisitAll(w, p, files), files[k];
      && (Taken(w.saved, p, f)
        ==> Unchanged(w'.saved, f) && LastPut(w'.puts, f.path) == Some(Put(f.path, f.sig, f.data, p.saves)))
      && (!Taken(w.saved, p, f)
        ==> (Unchanged(w'.saved, f) <==> Unchanged(w.saved, f)) && LastPut(w'.puts, f.path) == LastPut(w.puts, f.path))
    decreases |files|
  {
    var f := files[0];
    LastPutSnoc(w.puts, Put(f.path, f.sig, f.data, p.saves), f.path);
    LastPutSnoc(w.puts, Put(f.path, f.sig, f.data, p.saves), files[k].path);
    if k == 0 {
      OthersUntouched(Visit(w, p, f), p, files[1..], f.path);
    } else {
      EachFile(Visit(w, p, f), p, files[1..], k - 1);
    }
  }

  /** A pass in which nothing fails records every file in range that has been
      quiet long enough, and forgets the files that are gone. */
  lemma QuietPassConverges(w: World, p: Pass)
    requires p.files.Some? && p.saves && Distinct(p.files.value)
    requires forall f :: f in p.files.value ==> f.fate == Uploads
    ensures var w' := CollectOnce(w, p);
      && (forall f :: f in p.files.value && !TooOld(p, f) && !Settling(p, f) ==> Unchanged(w'.saved, f))
      && w'.saved.Keys <= Paths(p.files.value)
  {
    var files := p.files.value;
    forall f | f in files && !TooOld(p, f) && !Settling(p, f)
      ensures Unchanged(CollectOnce(w, p).saved, f)
    {
      var k :| 0 <= k < |files| && files[k] == f;
      EachFile(Loaded(w, p), p, files, k);
      assert f.path in Paths(files);
    }
  }

  /** A file whose recorded signature is its current one is not uploaded again,
      and one that could not be uploaded stays due. */
  lemma NotUploadedAgain(w: World, p: Pass, f: File)
    requires p.files.Some? && Distinct(p.files.value) && f in p.files.value
    ensures (p.loads && Unchanged(w.saved, f)) || f.fate != Uploads
      ==> LastPut(CollectOnce(w, p).puts, f.path) == LastPut(w.puts, f.path)
    ensures !Unchanged(w.saved, f) && f.fate != Uploads ==> !Unchanged(CollectOnce(w, p).saved, f)
  {
    var k :| 0 <= k < |p.files.value| && p.files.value[k] == f;
    EachFile(Loaded(w, p), p, p.files.value, k);
  }

  // ---- exactly which files are uploaded ----

  /** The file is due: not before the cut-off date, not as recorded, and untouched for
      as long as the settings ask, or for a minute when they ask for nothing. */
  predicate Due(w: World, p: Pass, f: File) {
    && (p.since == "" || !Before(f.day, p.since))
    && !(p.loads && f.path in w.saved && w.saved[f.path] == f.sig)
    && p.now - f.sig.mtime >= (if p.quietSeconds <= 0 then 60 else p.quietSeconds) * 1_000_000_000
  }

  /** One pass uploads a listed file, with its content and signature, if and only if it
      is due and can be opened, read and put; of any other file it uploads nothing. */
  lemma UploadedExactly(w: World, p: Pass, f: File)
    requires p.files.Some? && Distinct(p.files.value) && f in p.files.value
    ensures LastPut(Uploaded(w, p), f.path)
      == if Due(w, p, f) && f.fate == Uploads then Some(Put(f.path, f.sig, f.data, p.saves)) else None
  {
    var files, l := p.files.value, Loaded(World(w.saved, []), p);
    var k :| 0 <= k < |files| && files[k] == f;
    EachFile(l, p, files, k);
    SameUploads(Loaded(w, p), l, p, files);
  }

  /** What a pass uploads does not depend on what was uploaded before. */
  lemma {:induction false} SameUploads(w: World, v: World, p: Pass, files: seq<File>)
    requires w.saved == v.saved
    ensures VisitAll(w, p, files).saved == VisitAll(v, p, files).saved
    ensures |VisitAll(w, p, files).puts| >= |w.puts| && |VisitAll(v, p, files).puts| >= |v.puts|
    ensures VisitAll(w, p, files).puts[|w.puts|..] == VisitAll(v, p, files).puts[|v.puts|..]
    decreases |files|
  {
    if files != [] {
      var w', v' := Visit(w, p, files[0]), Visit(v, p, files[0]);
      SameUploads(w', v', p, files[1..]);
      VisitAllAdds(w', p, files[1..]);
      VisitAllAdds(v', p, files[1..]);
      var a, b := VisitAll(w', p, files[1..]).puts, VisitAll(v', p, files[1..]).puts;
      assert a[|w.puts|..] == a[..|w'.puts|][|w.puts|..] + a[|w'.puts|..];
      assert b[|v.puts|..] == b[..|v'.puts|][|v.puts|..] + b[|v'.puts|..];
    }
  }
}
