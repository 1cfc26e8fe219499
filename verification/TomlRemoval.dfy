/** Exactly which lines the strip takes out of a file, told line by line. */
module TomlRemoval {
  import opened Text
  import opened TomlScan
  import opened TomlSections
  import opened TomlStrip
  import opened TomlStability

  /** The header that ends the run of lines starting at i, when it absorbs them all;
      else the last header up to i; or -1 at the root. */
  function OwnerOf(cs: seq<TomlLine>, i: nat): (o: int)
    requires i < |cs|
    ensures -1 <= o < |cs| && (o >= 0 ==> cs[o].isHeader)
  {
    var h := NextHeader(cs, i);
    if h < |cs| && forall k :: i <= k < h ==> Absorbs(cs[h].header, cs[k].text) then h else LastHeader(cs, i)
  }

  predicate OfManagedTable(cs: seq<TomlLine>, i: nat)
    requires i < |cs|
  {
    OwnerOf(cs, i) >= 0 && cs[OwnerOf(cs, i)].header == MANAGED_TABLE
  }

  /** The line that the value around line i begins with, or -1. */
  function BeginOf(cs: seq<TomlLine>, i: int): (b: int)
    requires -1 <= i < |cs|
    ensures -1 <= b <= i && (b >= 0 ==> !cs[b].continuation)
  {
    if i == -1 || !cs[i].continuation then i else BeginOf(cs, i - 1)
  }

  /** The line assigns one of the tool's keys at the root. */
  predicate AssignsManaged(cs: seq<TomlLine>, b: nat)
    requires b < |cs|
  {
    !cs[b].isHeader && OwnerOf(cs, b) == -1 && ManagedKey(cs[b].text)
  }

  /** The line goes: with the tool's table and the comments touching its header, or with
      a value of the tool's at the root. */
  predicate Goes(cs: seq<TomlLine>, i: nat)
    requires i < |cs|
  {
    OfManagedTable(cs, i) || (BeginOf(cs, i) >= 0 && AssignsManaged(cs, BeginOf(cs, i)))
  }

  /** As in every plain pass: no value goes on below a header, and none leads up to one. */
  predicate Regular(cs: seq<TomlLine>) {
    && Apart(cs)
    && (forall i :: 0 <= i < |cs| && cs[i].continuation ==> !cs[i].isHeader)
    && (forall i :: 1 <= i < |cs| && cs[i].continuation ==> !cs[i - 1].isHeader)
    && (cs != [] ==> !cs[0].continuation)
  }

  /** The state of the strip before line i. */
  function StateBefore(cs: seq<TomlLine>, i: nat): StripState
    requires i <= |cs|
  {
    if i == 0 then AT_ROOT else StripStep(StateBefore(cs, i - 1), cs[i - 1..]).1
  }

  function KeepsAt(cs: seq<TomlLine>, i: nat): bool
    requires i < |cs|
  {
    StripStep(StateBefore(cs, i), cs[i..]).0
  }

  lemma OwnerMeans(cs: seq<TomlLine>, i: nat)
    requires i < |cs|
    ensures var table := TableAfter(None, cs[..i]);
      NameAt(cs, OwnerOf(cs, i)) == Owner(Enter(table, cs[i]), cs[i..])
  {
    LeadIsNextHeader(cs, i);
    TableAfterIsLastHeader(cs, i);
    TableAfterNext(None, cs, i);
  }

  lemma {:induction false} TableBefore(cs: seq<TomlLine>, i: nat)
    requires i <= |cs|
    ensures StateBefore(cs, i).table == TableAfter(None, cs[..i])
  {
    if i > 0 {
      TableBefore(cs, i - 1);
      TableAfterNext(None, cs, i - 1);
      assert cs[i - 1..][0] == cs[i - 1];
    } else {
      assert cs[..0] == [];
    }
  }

  lemma {:induction false} ApartFrom(cs: seq<TomlLine>, i: nat)
    requires Apart(cs) && i <= |cs|
    ensures Apart(cs[i..])
  {
    if i == 0 {
      assert cs[0..] == cs;
    } else {
      ApartFrom(cs[1..], i - 1);
      assert cs[1..][i - 1..] == cs[i..];
    }
  }

  /** The line above a line inside a value leads to no header. */
  lemma AboveContinuation(cs: seq<TomlLine>, i: nat)
    requires Regular(cs) && 1 <= i < |cs| && cs[i].continuation
    ensures Lead(cs[i - 1..]).None? && !cs[i - 1].isHeader
  {
    ApartFrom(cs, i);
    assert cs[i - 1..][1..] == cs[i..] && cs[i - 1..][0] == cs[i - 1] && cs[i..][0] == cs[i];
  }

  /** Inside a value the strip drops exactly what belongs to a value of the tool's. */
  lemma {:induction false} DropBefore(cs: seq<TomlLine>, i: nat)
    requires Regular(cs) && 1 <= i < |cs| && cs[i].continuation
    ensures TableAfter(None, cs[..i]) != Some(MANAGED_TABLE) ==>
      (StateBefore(cs, i).drop <==> BeginOf(cs, i) >= 0 && AssignsManaged(cs, BeginOf(cs, i)))
  {
    var j := i - 1;
    AboveContinuation(cs, i);
    TableBefore(cs, j);
    OwnerMeans(cs, j);
    TableAfterNext(None, cs, j);
    assert cs[j..][0] == cs[j];
    assert BeginOf(cs, i) == BeginOf(cs, j);
    if cs[j].continuation {
      assert j >= 1;
      DropBefore(cs, j);
    }
  }

  lemma KeepsExactly(cs: seq<TomlLine>, i: nat)
    requires Regular(cs) && i < |cs|
    ensures KeepsAt(cs, i) <==> !Goes(cs, i)
  {
    TableBefore(cs, i);
    OwnerMeans(cs, i);
    assert cs[i..][0] == cs[i];
    if cs[i].continuation {
      AboveContinuation(cs, i);
      DropBefore(cs, i);
      ApartFrom(cs, i);
    }
  }

  function Kepts(cs: seq<TomlLine>, i: nat): seq<bool>
    requires i <= |cs|
  {
    seq(|cs| - i, k requires 0 <= k < |cs| - i => !Goes(cs, i + k))
  }

  lemma PickedFrom(cs: seq<TomlLine>, i: nat)
    requires i < |cs|
    ensures Picked(cs[i..], Kepts(cs, i))
      == (if !Goes(cs, i) then [cs[i]] else []) + Picked(cs[i + 1..], Kepts(cs, i + 1))
  {
    assert cs[i..][0] == cs[i] && cs[i..][1..] == cs[i + 1..];
    assert Kepts(cs, i)[0] == !Goes(cs, i) && Kepts(cs, i)[1..] == Kepts(cs, i + 1);
  }

  lemma StripAt(cs: seq<TomlLine>, i: nat)
    requires i < |cs|
    ensures Strip(StateBefore(cs, i), cs[i..])
      == (if KeepsAt(cs, i) then [cs[i]] else []) + Strip(StateBefore(cs, i + 1), cs[i + 1..])
  {
    assert cs[i..][0] == cs[i] && cs[i..][1..] == cs[i + 1..];
    assert StateBefore(cs, i + 1) == StripStep(StateBefore(cs, i), cs[i..]).1;
  }

  lemma {:induction false} StripFrom(cs: seq<TomlLine>, i: nat)
    requires Regular(cs) && i <= |cs|
    ensures Strip(StateBefore(cs, i), cs[i..]) == Picked(cs[i..], Kepts(cs, i))
    decreases |cs| - i
  {
    if i < |cs| {
      KeepsExactly(cs, i);
      StripAt(cs, i);
      PickedFrom(cs, i);
      StripFrom(cs, i + 1);
    }
  }

  lemma {:induction false} PlainIsRegular(st: ScanState, ls: seq<Line>)
    ensures var cs := Classify(st, ls, false);
      && (forall i :: 0 <= i < |cs| && cs[i].continuation ==> !cs[i].isHeader)
      && (forall i :: 1 <= i < |cs| && cs[i].continuation ==> !cs[i - 1].isHeader)
    decreases |ls|
  {
    if ls != [] {
      var cs, st' := Classify(st, ls, false), NextState(st, ls[0], false);
      ClassifyFirst(st, ls, false);
      PlainIsRegular(st', ls[1..]);
      var rest := Classify(st', ls[1..], false);
      assert forall i :: 1 <= i < |cs| ==> cs[i] == rest[i - 1];
      forall i | 1 <= i < |cs| && cs[i].continuation
        ensures !cs[i - 1].isHeader
      {
        if i == 1 {
          ClassifyFirst(st', ls[1..], false);
        } else {
          assert cs[i] == rest[i - 1] && cs[i - 1] == rest[i - 2];
        }
      }
    }
  }

  /** Of a file that closes, in which nothing inside a value leads up to a header, the
      strip removes exactly the lines of the tool's table, the comments touching its
      header, and the tool's values at the root: every other line stays, comments and
      blanks included, in its order. */
  lemma KeptExactly(ls: seq<Line>)
    requires Closes(ls) && Apart(Scan(ls))
    ensures Kept(ls) == Texts(Picked(Scan(ls), Kepts(Scan(ls), 0)))
  {
    var cs := Scan(ls);
    PlainIsRegular(FRESH, ls);
    if ls != [] {
      ClassifyFirst(FRESH, ls, false);
    }
    StripFrom(cs, 0);
    assert cs[0..] == cs;
  }

  /** In particular a comment or blank line outside every value stays, unless it is in
      the tool's table or in the unbroken run of comments above its header. */
  lemma FillerGoes(ls: seq<Line>, i: nat)
    requires Closes(ls) && i < |ls| && Filler(ls[i]) && !Scan(ls)[i].continuation && !Scan(ls)[i].isHeader
    ensures Goes(Scan(ls), i) <==> OfManagedTable(Scan(ls), i)
  {
    var cs := Scan(ls);
    assert BeginOf(cs, i) == i;
    TrimmedStart(ls[i]);
  }
}
