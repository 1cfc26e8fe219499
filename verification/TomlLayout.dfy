/** Where the lines of a merged file come from, and in which order they stand. */
module TomlLayout {
  import opened Text
  import opened TomlScan
  import opened TomlSections
  import opened TomlStrip
  import opened TomlRemoval
  import opened TomlAssembly
  import opened TomlRedelivery
  import opened TomlMerge

  /** The lines that are not blank, in their order. */
  function Solid(ls: seq<Line>): seq<Line> {
    if ls == [] then [] else (if Blank(ls[0]) then [] else [ls[0]]) + Solid(ls[1..])
  }

  lemma {:induction false} SolidConcat(a: seq<Line>, b: seq<Line>)
    ensures Solid(a + b) == Solid(a) + Solid(b)
  {
    if a == [] {
      assert a + b == b;
    } else {
      assert (a + b)[0] == a[0] && (a + b)[1..] == a[1..] + b;
      SolidConcat(a[1..], b);
    }
  }

  lemma {:induction false} SolidBlanks(ls: seq<Line>)
    requires AllBlank(ls)
    ensures Solid(ls) == []
  {
    if ls != [] {
      assert ls[0] in ls;
      SolidBlanks(ls[1..]);
    }
  }

  lemma SolidTrim(ls: seq<Line>)
    ensures Solid(TrimBlank(ls)) == Solid(ls)
  {
    var pre, post := TrimParts(ls);
    SolidConcat(pre + TrimBlank(ls), post);
    SolidConcat(pre, TrimBlank(ls));
    SolidBlanks(pre);
    SolidBlanks(post);
  }

  lemma SolidSep(ls: seq<Line>)
    ensures Solid(Sep(ls)) == Solid(ls)
  {
    assert Blank("");
    if ls != [] {
      assert ([""] + ls)[1..] == ls;
    }
  }

  lemma FourSolid(a: seq<Line>, b: seq<Line>, c: seq<Line>, d: seq<Line>)
    ensures Solid(a + (b + (c + d))) == Solid(a) + (Solid(b) + (Solid(c) + Solid(d)))
  {
    SolidConcat(a, b + (c + d));
    SolidConcat(b, c + d);
    SolidConcat(c, d);
  }

  /** Blank lines aside, a merged file is the delivered keys, what the employee has at the
      root, the delivered table, and the employee's tables: every kept line once, in its
      order, and no other. */
  lemma MergedLines(existing: seq<Line>, f: Fragment, allowed: seq<string>)
    ensures var f1, kept := Chosen(f, existing, allowed), Kept(existing);
      Solid(Merge(existing, f, allowed))
      == Solid(f1.root) + (Solid(RootPart(kept)) + (Solid(f1.Tables()) + Solid(TablesPart(kept))))
  {
    var f1, kept := Chosen(f, existing, allowed), Kept(existing);
    var k := PartsOf(kept);
    assert Sep(f1.Tables()) == [""] + f1.Tables();
    assert Merge(existing, f, allowed) == f1.root + (Sep(k.root) + (Sep(f1.Tables()) + Sep(k.tables)));
    FourSolid(f1.root, Sep(k.root), Sep(f1.Tables()), Sep(k.tables));
    SolidSep(k.root);
    SolidSep(f1.Tables());
    SolidSep(k.tables);
    SolidTrim(RootPart(kept));
    SolidTrim(TablesPart(kept));
  }

  /** No line above the cut belongs to a table. */
  lemma RootBelongsToNone(cs: seq<TomlLine>, i: nat)
    requires i < SplitIndex(cs)
    ensures OwnerOf(cs, i) == -1
  {
    LeadIsNextHeader(cs, i);
    NoHeaderUpTo(cs, i);
  }

  lemma NoHeaderUpTo(cs: seq<TomlLine>, i: nat)
    requires i < SplitIndex(cs)
    ensures LastHeader(cs, i) == -1
  {
    var h := LastHeader(cs, i);
    assert h >= 0 ==> Lead(cs[h..]).Some?;
  }

  lemma LedToIsOwned(cs: seq<TomlLine>, i: nat)
    requires i < |cs| && Lead(cs[i..]).Some?
    ensures OwnerOf(cs, i) != -1
  {
    LeadIsNextHeader(cs, i);
  }

  /** The cut stands at the first line that belongs to a table, be it as a header, below
      one, or in the run of comments and blanks above one. */
  lemma CutExactly(ls: seq<Line>)
    ensures RootPart(ls) + TablesPart(ls) == ls
    ensures forall i :: 0 <= i < |RootPart(ls)| ==> OwnerOf(Scan(ls), i) == -1
    ensures |RootPart(ls)| < |ls| ==> OwnerOf(Scan(ls), |RootPart(ls)|) != -1
  {
    var cs := Scan(ls);
    forall i | 0 <= i < SplitIndex(cs)
      ensures OwnerOf(cs, i) == -1
    {
      RootBelongsToNone(cs, i);
    }
    if SplitIndex(cs) < |cs| {
      LedToIsOwned(cs, SplitIndex(cs));
    }
  }

  /** Single blank lines separate the four parts, and nothing else is added. */
  lemma MergedBlanks(existing: seq<Line>, f: Fragment, allowed: seq<string>)
    ensures var f1, k := Chosen(f, existing, allowed), PartsOf(Kept(existing));
      |Merge(existing, f, allowed)|
      == |f1.root| + (if k.root == [] then 0 else 1 + |k.root|) + 1 + |f1.Tables()|
         + (if k.tables == [] then 0 else 1 + |k.tables|)
  {}
}
