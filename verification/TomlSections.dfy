/** Which table a line belongs to, and the cut of a file into its root part and
    its tables (tomlSectionOwners, splitTomlRootAndTables). */
module TomlSections {
  import opened Text
  import opened TomlScan

  /** The one table the tool owns outright. */
  const MANAGED_TABLE: string := "model_providers.gateway"

  /** The header takes this line when it stands in the run directly above it. */
  predicate Absorbs(header: string, l: Line) {
    Comment(l) || (Blank(l) && header != MANAGED_TABLE)
  }

  /** The header that the run of lines starting at cs[0] leads up to, if any. */
  function Lead(cs: seq<TomlLine>): Option<string> {
    if cs == [] then None
    else if cs[0].isHeader then Some(cs[0].header)
    else
      match Lead(cs[1..])
      case Some(h) => if Absorbs(h, cs[0].text) then Some(h) else None
      case None => None
  }

  /** The table in force after the lines cs, entered in table cur. */
  function TableAfter(cur: Option<string>, cs: seq<TomlLine>): Option<string>
    decreases |cs|
  {
    if cs == [] then cur
    else TableAfter(if cs[0].isHeader then Some(cs[0].header) else cur, cs[1..])
  }

  /** The table the first line of cs belongs to, entered in table cur. */
  function Owner(cur: Option<string>, cs: seq<TomlLine>): Option<string> {
    if Lead(cs).Some? then Lead(cs) else cur
  }

  /** Where the first line that belongs to any table stands, or the end. */
  function SplitIndex(cs: seq<TomlLine>): (p: nat)
    ensures p <= |cs|
    ensures forall i :: 0 <= i < p ==> Lead(cs[i..]).None?
    ensures p < |cs| ==> Lead(cs[p..]).Some?
  {
    if cs == [] || Lead(cs).Some? then 0 else
      assert forall i :: 0 < i <= |cs| ==> cs[i..] == cs[1..][i - 1..];
      1 + SplitIndex(cs[1..])
  }

  // ---- blank lines at the ends of a section ----

  function DropBlankHead(ls: seq<Line>): seq<Line> {
    if ls != [] && Blank(ls[0]) then DropBlankHead(ls[1..]) else ls
  }

  function DropBlankTail(ls: seq<Line>): seq<Line> {
    if ls != [] && Blank(ls[|ls| - 1]) then DropBlankTail(ls[..|ls| - 1]) else ls
  }

  function TrimBlank(ls: seq<Line>): seq<Line> {
    DropBlankTail(DropBlankHead(ls))
  }

  // ---- the owner array ----

  function NextHeader(cs: seq<TomlLine>, j: nat): (h: nat)
    requires j <= |cs|
    ensures j <= h <= |cs|
    ensures h < |cs| ==> cs[h].isHeader
    ensures forall k :: j <= k < h ==> !cs[k].isHeader
    decreases |cs| - j
  {
    if j == |cs| || cs[j].isHeader then j else NextHeader(cs, j + 1)
  }

  function LastHeader(cs: seq<TomlLine>, j: int): (h: int)
    requires -1 <= j < |cs|
    ensures -1 <= h <= j
    ensures h >= 0 ==> cs[h].isHeader
    ensures forall k :: h < k <= j ==> !cs[k].isHeader
  {
    if j == -1 || cs[j].isHeader then j else LastHeader(cs, j - 1)
  }

  function NameAt(cs: seq<TomlLine>, h: int): Option<string>
    requires -1 <= h < |cs|
  {
    if h == -1 then None else Some(cs[h].header)
  }

  /** A run leads to the next header exactly when that header absorbs all of it. */
  lemma {:induction false} LeadIsNextHeader(cs: seq<TomlLine>, j: nat)
    requires j <= |cs|
    ensures var h := NextHeader(cs, j);
      && (Lead(cs[j..]).Some? <==> h < |cs| && forall k :: j <= k < h ==> Absorbs(cs[h].header, cs[k].text))
      && (Lead(cs[j..]).Some? ==> Lead(cs[j..]).value == cs[h].header)
    decreases |cs| - j
  {
    if j < |cs| && !cs[j].isHeader {
      assert cs[j..][1..] == cs[j + 1..];
      LeadIsNextHeader(cs, j + 1);
    }
  }

  lemma {:induction false} TableAfterIsLastHeader(cs: seq<TomlLine>, j: nat)
    requires j < |cs|
    ensures TableAfter(None, cs[..j + 1]) == NameAt(cs, LastHeader(cs, j))
  {
    assert cs[..j + 1] == cs[..j] + [cs[j]];
    TableAfterConcat(None, cs[..j], [cs[j]]);
    if j > 0 {
      TableAfterIsLastHeader(cs, j - 1);
    }
  }

  lemma {:induction false} TableAfterConcat(cur: Option<string>, a: seq<TomlLine>, b: seq<TomlLine>)
    ensures TableAfter(cur, a + b) == TableAfter(TableAfter(cur, a), b)
    decreases |a|
  {
    if a == [] {
      assert a + b == b;
    } else {
      assert (a + b)[1..] == a[1..] + b;
      TableAfterConcat(if a[0].isHeader then Some(a[0].header) else cur, a[1..], b);
    }
  }

  /** The index a line's owner slot must hold once the headers before h are done. */
  function OwnerIndex(cs: seq<TomlLine>, j: nat, h: nat): (o: int)
    requires j < |cs|
    ensures -1 <= o < |cs|
  {
    if NextHeader(cs, j) < |cs| && Lead(cs[j..]).Some? && NextHeader(cs, j) < h then NextHeader(cs, j)
    else LastHeader(cs, j)
  }

  /** The slot of line i names the table that line belongs to. */
  predicate OwnerSlot(cs: seq<TomlLine>, i: nat, o: int)
    requires i < |cs|
  {
    && -1 <= o < |cs|
    && NameAt(cs, o) == Owner(TableAfter(None, cs[..i + 1]), cs[i..])
  }

  predicate IsOwnerMap(cs: seq<TomlLine>, owner: seq<int>) {
    && |owner| == |cs|
    && forall i :: 0 <= i < |cs| ==> OwnerSlot(cs, i, owner[i])
  }

  predicate HeadersAreNotFiller(cs: seq<TomlLine>) {
    forall i :: 0 <= i < |cs| && cs[i].isHeader ==> !Filler(cs[i].text)
  }

  method AbsorbRun(lines: seq<TomlLine>, owner: array<int>, h: nat)
    requires owner.Length == |lines| && h < |lines| && lines[h].isHeader
    requires HeadersAreNotFiller(lines)
    requires forall j :: 0 <= j < |lines| ==> owner[j] == OwnerIndex(lines, j, h)
    modifies owner
    ensures forall j :: 0 <= j < |lines| ==> owner[j] == OwnerIndex(lines, j, h + 1)
  {
    var managed := lines[h].header == MANAGED_TABLE;
    var j := h - 1;
    while j >= 0
      invariant -1 <= j < h
      invariant forall k :: j < k < h ==> !lines[k].isHeader && Absorbs(lines[h].header, lines[k].text) && owner[k] == h
      invariant forall k :: 0 <= k <= j || h <= k < |lines| ==> owner[k] == OwnerIndex(lines, k, h)
      decreases j
    {
      var text := lines[j].text;
      if Blank(text) {
        if managed {
          break;
        }
        owner[j] := h;
        j := j - 1;
        continue;
      }
      if !Comment(text) {
        break;
      }
      owner[j] := h;
      j := j - 1;
    }
    assert j >= 0 ==> !Absorbs(lines[h].header, lines[j].text);
    forall k | 0 <= k < |lines|
      ensures owner[k] == OwnerIndex(lines, k, h + 1)
    {
      LeadIsNextHeader(lines, k);
      if j < k < h {
        assert NextHeader(lines, k) == h;
      }
    }
  }

  /** tomlSectionOwners, with its array of header indices. */
  method TomlSectionOwners(lines: seq<TomlLine>) returns (owner: array<int>)
    requires HeadersAreNotFiller(lines)
    ensures IsOwnerMap(lines, owner[..])
  {
    owner := new int[|lines|];
    var current := -1;
    for i := 0 to |lines|
      invariant current == LastHeader(lines, i - 1)
      invariant forall j :: 0 <= j < i ==> owner[j] == LastHeader(lines, j)
    {
      if lines[i].isHeader {
        current := i;
      }
      owner[i] := current;
    }
    for h := 0 to |lines|
      invariant forall j :: 0 <= j < |lines| ==> owner[j] == OwnerIndex(lines, j, h)
    {
      if lines[h].isHeader {
        AbsorbRun(lines, owner, h);
      } else {
        assert forall j :: 0 <= j < |lines| ==> NextHeader(lines, j) != h;
      }
    }
    forall i | 0 <= i < |lines|
      ensures OwnerSlot(lines, i, owner[i])
    {
      LeadIsNextHeader(lines, i);
      TableAfterIsLastHeader(lines, i);
    }
  }

  lemma ScanHeadersAreNotFiller(ls: seq<Line>)
    ensures HeadersAreNotFiller(Scan(ls))
  {
    var cs := Scan(ls);
    forall i | 0 <= i < |cs| && cs[i].isHeader
      ensures !Filler(cs[i].text)
    {
      HeaderShape(FRESH, ls, !Closes(ls), i);
      HeaderIsNotFiller(ls[i]);
    }
  }

  lemma HeaderIsNotFiller(l: Line)
    requires Shape(l).Some?
    ensures !Filler(l)
  {
    TrimmedStart(l);
  }

  // ---- the cut ----

  lemma TableAfterNext(cur: Option<string>, cs: seq<TomlLine>, k: nat)
    requires k < |cs|
    ensures TableAfter(cur, cs[..k + 1]) == if cs[k].isHeader then Some(cs[k].header) else TableAfter(cur, cs[..k])
  {
    assert cs[..k + 1] == cs[..k] + [cs[k]];
    TableAfterConcat(cur, cs[..k], [cs[k]]);
  }

  /** Before the cut, a line's owner slot is -1 exactly when the cut is further on. */
  lemma RootStep(cs: seq<TomlLine>, k: nat)
    requires k < |cs| && k <= SplitIndex(cs)
    requires TableAfter(None, cs[..k]) == None
    ensures Owner(TableAfter(None, cs[..k + 1]), cs[k..]).None? <==> k < SplitIndex(cs)
    ensures k < SplitIndex(cs) ==> TableAfter(None, cs[..k + 1]) == None
  {
    TableAfterNext(None, cs, k);
    var rest := cs[k..];
    assert rest[0] == cs[k];
    assert k < SplitIndex(cs) ==> Lead(rest).None?;
    assert k == SplitIndex(cs) ==> Lead(rest).Some?;
    assert rest[0].isHeader ==> Lead(rest).Some?;
  }

  method FirstOwnedLine(lines: seq<TomlLine>, owner: array<int>) returns (splitAt: nat)
    requires IsOwnerMap(lines, owner[..])
    ensures splitAt == SplitIndex(lines)
  {
    splitAt := 0;
    while splitAt < |lines| && owner[splitAt] == -1
      invariant splitAt <= SplitIndex(lines)
      invariant TableAfter(None, lines[..splitAt]) == None
    {
      assert OwnerSlot(lines, splitAt, owner[..][splitAt]);
      RootStep(lines, splitAt);
      splitAt := splitAt + 1;
    }
    if splitAt < |lines| {
      assert OwnerSlot(lines, splitAt, owner[..][splitAt]);
      RootStep(lines, splitAt);
    }
  }

  method SplitTomlRootAndTables(src: string) returns (root: string, tables: string, ok: bool)
    ensures ok == Scannable(src) && (ok ==> root == RootText(src) && tables == TablesText(src))
  {
    var lines;
    lines, ok := ScanTomlLines(src);
    if !ok {
      return "", "", false;
    }
    ScanHeadersAreNotFiller(Lines(src));
    var owner := TomlSectionOwners(lines);
    var splitAt := FirstOwnedLine(lines, owner);
    root := JoinTomlLines(lines[..splitAt]);
    tables := JoinTomlLines(lines[splitAt..]);
  }

  function RootText(src: string): string {
    var cs := Scan(Lines(src));
    Join(Texts(cs[..SplitIndex(cs)]))
  }

  function TablesText(src: string): string {
    var cs := Scan(Lines(src));
    Join(Texts(cs[SplitIndex(cs)..]))
  }

  method JoinTomlLines(lines: seq<TomlLine>) returns (text: string)
    ensures text == Join(Texts(lines))
  {
    text := "";
    assert Texts(lines)[..0] == [];
    for i := 0 to |lines|
      invariant text == Join(Texts(lines)[..i])
    {
      text := text + lines[i].text;
      text := text + "\n";
      assert Texts(lines)[..i + 1] == Texts(lines)[..i] + [lines[i].text];
      JoinConcat(Texts(lines)[..i], [lines[i].text]);
      assert Join([lines[i].text]) == lines[i].text + "\n";
    }
    assert Texts(lines)[..|lines|] == Texts(lines);
  }
}
