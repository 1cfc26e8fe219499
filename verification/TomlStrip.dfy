/** Removal of the managed root keys and the managed table (stripCodexManaged). */
module TomlStrip {
  import opened Text
  import opened TomlScan
  import opened TomlSections

  const MANAGED_KEYS: set<string> :=
    {"model", "model_provider", "model_catalog_json", "web_search", "stream_idle_timeout_ms"}

  predicate KeyChars(key: string) {
    forall i :: 0 <= i < |key| ==> key[i] !in {' ', '\t', '"', '\'', '[', ']'}
  }

  function KeyName(p: string): Option<string> {
    var key := TrimSpace(p);
    if key != [] && KeyChars(key) then Some(key) else None
  }

  /** The key of a simple `key = value` line (tomlRootKey). */
  function RootKey(trimmed: string): Option<string> {
    if trimmed == [] || trimmed[0] == '#' then None
    else
      var eq := IndexFrom(trimmed, '=', 0);
      if eq == 0 || eq == |trimmed| then None else KeyName(trimmed[..eq])
  }

  function KeyOf(l: Line): Option<string> {
    RootKey(TrimSpace(l))
  }

  /** The line assigns one of the keys the tool owns at the root. */
  predicate ManagedKey(l: Line) {
    KeyOf(l).Some? && KeyOf(l).value in MANAGED_KEYS
  }

  /** The table the strip is in, and whether a managed root value is still open. */
  datatype StripState = StripState(table: Option<string>, drop: bool)

  const AT_ROOT: StripState := StripState(None, false)

  /** Whether the first line of cs is kept, and the state after it. */
  function StripStep(s: StripState, cs: seq<TomlLine>): (bool, StripState)
    requires cs != []
  {
    var c := cs[0];
    var owner := Owner(Enter(s.table, c), cs);
    if c.continuation then (owner != Some(MANAGED_TABLE) && !s.drop, StripState(Enter(s.table, c), s.drop))
    else if c.isHeader then (c.header != MANAGED_TABLE, StripState(Some(c.header), false))
    else if owner == Some(MANAGED_TABLE) then (false, s)
    else if owner.None? && ManagedKey(c.text) then (false, StripState(s.table, true))
    else (true, StripState(s.table, false))
  }

  /** The lines of cs that the strip keeps. */
  function Strip(s: StripState, cs: seq<TomlLine>): (kept: seq<TomlLine>)
    ensures |kept| <= |cs|
    decreases |cs|
  {
    if cs == [] then []
    else
      var (keep, s') := StripStep(s, cs);
      (if keep then [cs[0]] else []) + Strip(s', cs[1..])
  }

  function StripAfter(s: StripState, cs: seq<TomlLine>): StripState
    decreases |cs|
  {
    if cs == [] then s else StripAfter(StripStep(s, cs).1, cs[1..])
  }

  /** The lines of a file that do not belong to the tool. */
  function Kept(ls: seq<Line>): seq<Line> {
    Texts(Strip(AT_ROOT, Scan(ls)))
  }

  function StripText(src: string): string {
    Join(Kept(Lines(src)))
  }

  /** The table in force once line c has been read. */
  function Enter(table: Option<string>, c: TomlLine): Option<string> {
    if c.isHeader then Some(c.header) else table
  }

  /** What the owner slot of line i tells the loops below. */
  lemma SlotMeaning(cs: seq<TomlLine>, i: nat, o: int, table: Option<string>)
    requires i < |cs| && OwnerSlot(cs, i, o)
    requires table == TableAfter(None, cs[..i])
    ensures TableAfter(None, cs[..i + 1]) == Enter(table, cs[i])
    ensures o == -1 <==> Owner(Enter(table, cs[i]), cs[i..]).None?
    ensures o != -1 ==> Owner(Enter(table, cs[i]), cs[i..]) == Some(cs[o].header)
  {
    TableAfterNext(None, cs, i);
  }

  lemma StripUnfold(a: seq<TomlLine>, s: StripState, cs: seq<TomlLine>, k: nat)
    requires k < |cs|
    ensures var (keep, s') := StripStep(s, cs[k..]);
      a + Strip(s, cs[k..]) == (if keep then a + [cs[k]] else a) + Strip(s', cs[k + 1..])
  {
    assert cs[k..][1..] == cs[k + 1..];
  }

  lemma TextsAppend(a: seq<TomlLine>, c: TomlLine)
    ensures Join(Texts(a + [c])) == Join(Texts(a)) + c.text + "\n"
  {
    assert Texts(a + [c]) == Texts(a) + [c.text];
    JoinConcat(Texts(a), [c.text]);
    assert Join([c.text]) == c.text + "\n";
  }

  method StripCodexManaged(src: string) returns (out: string, ok: bool)
    ensures ok == Scannable(src) && (ok ==> out == StripText(src))
  {
    var lines;
    lines, ok := ScanTomlLines(src);
    if !ok {
      return "", false;
    }
    ScanHeadersAreNotFiller(Lines(src));
    var owner := TomlSectionOwners(lines);
    out := StripLines(lines, owner);
  }

  method StripLines(lines: seq<TomlLine>, owner: array<int>) returns (out: string)
    requires IsOwnerMap(lines, owner[..])
    ensures out == Join(Texts(Strip(AT_ROOT, lines)))
  {
    out := "";
    var dropRootContinuation := false;
    ghost var kept: seq<TomlLine> := [];
    ghost var table: Option<string> := None;
    assert lines[..0] == [] && lines[0..] == lines;
    for i := 0 to |lines|
      invariant table == TableAfter(None, lines[..i])
      invariant out == Join(Texts(kept))
      invariant kept + Strip(StripState(table, dropRootContinuation), lines[i..]) == Strip(AT_ROOT, lines)
    {
      assert OwnerSlot(lines, i, owner[..][i]);
      SlotMeaning(lines, i, owner[i], table);
      StripUnfold(kept, StripState(table, dropRootContinuation), lines, i);
      var keep;
      keep, dropRootContinuation := StripLine(lines, i, owner[i], dropRootContinuation, table);
      table := Enter(table, lines[i]);
      if keep {
        TextsAppend(kept, lines[i]);
        kept := kept + [lines[i]];
        out := out + lines[i].text;
        out := out + "\n";
      }
    }
    assert lines[|lines|..] == [];
    assert kept == Strip(AT_ROOT, lines);
  }

  /** The body of the loop: whether line i stays, and the flag handed to the next line. */
  method StripLine(lines: seq<TomlLine>, i: nat, owner: int, dropRootContinuation: bool, ghost table: Option<string>)
    returns (keep: bool, drop: bool)
    requires i < |lines| && -1 <= owner < |lines|
    requires NameAt(lines, owner) == Owner(Enter(table, lines[i]), lines[i..])
    ensures (keep, StripState(Enter(table, lines[i]), drop))
            == StripStep(StripState(table, dropRootContinuation), lines[i..])
  {
    var ln := lines[i];
    var managedTableOwner := owner != -1 && lines[owner].header == MANAGED_TABLE;
    drop := dropRootContinuation;
    if ln.continuation {
      keep := !(managedTableOwner || dropRootContinuation);
    } else if ln.isHeader {
      drop := false;
      keep := ln.header != MANAGED_TABLE;
    } else if managedTableOwner {
      keep := false;
    } else if owner == -1 && ManagedKey(ln.text) {
      drop := true;
      keep := false;
    } else {
      drop := false;
      keep := true;
    }
  }

  // ---- the gateway identity ----

  /** The gateway identity of classified lines: root model_provider lines and
      the managed table, without blanks and comments. */
  function Identity(table: Option<string>, cs: seq<TomlLine>): string
    decreases |cs|
  {
    if cs == [] then []
    else
      var c := cs[0];
      var table' := Enter(table, c);
      IdentityLine(Owner(table', cs), !c.continuation && !c.isHeader, c.text) + Identity(table', cs[1..])
  }

  function IdentityLine(owner: Option<string>, atStart: bool, l: Line): string {
    if Filler(l) then []
    else if owner == Some(MANAGED_TABLE) || (owner.None? && atStart && KeyOf(l) == Some("model_provider"))
    then TrimSpace(l) + "\n"
    else []
  }

  /** The whole content when it cannot be scanned. */
  function IdentityText(config: string): string {
    if Scannable(config) then Identity(None, Scan(Lines(config))) else config
  }

  lemma IdentityUnfold(b: string, table: Option<string>, cs: seq<TomlLine>, i: nat)
    requires i < |cs|
    ensures var c := cs[i];
      b + Identity(table, cs[i..])
      == b + IdentityLine(Owner(Enter(table, c), cs[i..]), !c.continuation && !c.isHeader, c.text)
           + Identity(Enter(table, c), cs[i + 1..])
  {
    assert cs[i..][1..] == cs[i + 1..];
  }

  method GatewayIdentity(config: string) returns (b: string)
    ensures b == IdentityText(config)
  {
    var lines, ok := ScanTomlLines(config);
    if !ok {
      return config;
    }
    ScanHeadersAreNotFiller(Lines(config));
    var owner := TomlSectionOwners(lines);
    b := IdentityLines(lines, owner);
  }

  method IdentityLines(lines: seq<TomlLine>, owner: array<int>) returns (b: string)
    requires IsOwnerMap(lines, owner[..])
    ensures b == Identity(None, lines)
  {
    b := "";
    ghost var table: Option<string> := None;
    assert lines[..0] == [] && lines[0..] == lines;
    for i := 0 to |lines|
      invariant table == TableAfter(None, lines[..i])
      invariant b + Identity(table, lines[i..]) == Identity(None, lines)
    {
      var ln := lines[i];
      assert OwnerSlot(lines, i, owner[..][i]);
      SlotMeaning(lines, i, owner[i], table);
      IdentityUnfold(b, table, lines, i);
      var piece := IdentityOfLine(ln, NameAt(lines, owner[i]));
      table := Enter(table, ln);
      b := b + piece;
    }
    assert lines[|lines|..] == [];
    assert b == b + [];
  }

  method IdentityOfLine(ln: TomlLine, owner: Option<string>) returns (piece: string)
    ensures piece == IdentityLine(owner, !ln.continuation && !ln.isHeader, ln.text)
  {
    var trimmed := TrimSpace(ln.text);
    TrimmedStart(ln.text);
    if trimmed == "" || trimmed[0] == '#' {
      return "";
    }
    var inTable := owner == Some(MANAGED_TABLE);
    var atRoot := owner.None? && !ln.continuation && !ln.isHeader;
    if inTable || (atRoot && RootKey(trimmed) == Some("model_provider")) {
      return trimmed + "\n";
    }
    return "";
  }
}
