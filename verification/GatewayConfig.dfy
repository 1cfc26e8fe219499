/** The delivered fragment as the console renders it (RenderGatewayConfig), and
    that it has the shape the merge relies on. */
module GatewayConfig {
  import opened Text
  import opened GoQuote
  import opened TomlScan
  import opened TomlSections
  import opened TomlStrip
  import opened TomlStability
  import opened TomlAssembly
  import opened TomlModel
  import opened TomlMerge
  import opened TomlIdentity
  import opened TomlReturns
  import opened TomlFile

  // ---- rendering ----

  /** `key = value` with the key padded to width. */
  function Assign(key: string, width: nat, value: string): Line
    requires |key| <= width
  {
    key + seq(width - |key|, _ => ' ') + "= " + value
  }

  function Quoted(s: string): string {
    "\"" + s + "\""
  }

  /** strings.TrimRight(s, "/"). */
  function TrimSlashes(s: string): string {
    if s != [] && s[|s| - 1] == '/' then TrimSlashes(s[..|s| - 1]) else s
  }

  function ModelLine(allowed: seq<string>): Line {
    Assign("model", 19, Quote(if allowed == [] then "" else allowed[0]))
  }

  function ProviderLine(): Line {
    Assign("model_provider", 19, Quoted("gateway"))
  }

  function CatalogPath(windowsUser: string): string {
    "C:/Users/" + windowsUser + "/.codex/models.json"
  }

  function CatalogLine(windowsUser: string): Line {
    Assign("model_catalog_json", 19, Quoted(CatalogPath(windowsUser)))
  }

  function SearchLine(): Line {
    Assign("web_search", 19, Quoted("live"))
  }

  function TimeoutLine(): Line {
    Assign("stream_idle_timeout_ms", 23, "7200000")
  }

  function NameLine(): Line {
    Assign("name", 9, Quoted("Gateway"))
  }

  function UrlLine(baseURL: string): Line {
    Assign("base_url", 9, Quote(TrimSlashes(baseURL) + "/v1"))
  }

  function WireLine(): Line {
    Assign("wire_api", 9, Quoted("responses"))
  }

  function TokenLine(token: string): Line {
    Assign("experimental_bearer_token", 26, Quote(token))
  }

  function Rendered(baseURL: string, windowsUser: string, allowed: seq<string>, token: string): Fragment {
    Fragment(
      [ModelLine(allowed), ProviderLine(), CatalogLine(windowsUser), SearchLine(), TimeoutLine()],
      [],
      "[" + MANAGED_TABLE + "]",
      [NameLine(), UrlLine(baseURL), WireLine(), TokenLine(token)])
  }

  function RenderGatewayConfig(baseURL: string, windowsUser: string, allowed: seq<string>, token: string): string {
    Join(Rendered(baseURL, windowsUser, allowed, token).AllLines())
  }

  // ---- one assignment ----

  predicate PlainKey(key: string) {
    key != [] && forall i :: 0 <= i < |key| ==> 'a' <= key[i] <= 'z' || key[i] == '_'
  }

  lemma {:induction false} TrimRightPadded(key: string, n: nat)
    requires PlainKey(key)
    ensures TrimRight(key + seq(n, _ => ' ')) == key
  {
    var s := key + seq(n, _ => ' ');
    if n > 0 {
      assert s[..|s| - 1] == key + seq(n - 1, _ => ' ');
      TrimRightPadded(key, n - 1);
    } else {
      assert s == key;
    }
  }

  lemma AssignParts(key: string, width: nat, value: string)
    requires PlainKey(key) && |key| <= width
    ensures var l := Assign(key, width, value);
      && |l| == width + 2 + |value| && FirstEquals(l, width) && l[width + 1] == ' '
      && l[width + 2..] == value && l[..width] == key + seq(width - |key|, _ => ' ')
      && (forall j :: 0 <= j < width + 2 ==> Inert(l[j]))
      && l[0] == key[0]
  {}

  lemma AssignKey(key: string, width: nat, value: string)
    requires PlainKey(key) && |key| <= width
    ensures KeyOf(Assign(key, width, value)) == Some(key)
  {
    var l, p := Assign(key, width, value), key + seq(width - |key|, _ => ' ');
    AssignParts(key, width, value);
    KeyOfPrefix(l, width);
    assert p[0] == key[0] && Indent(p) == 0;
    assert p[0..] == p;
    TrimRightPadded(key, width - |key|);
  }

  lemma AssignIsPlain(key: string, width: nat, value: string)
    requires PlainKey(key) && |key| <= width
    ensures var l := Assign(key, width, value);
      Shape(l).None? && !Filler(l)
  {
    var l := Assign(key, width, value);
    AssignParts(key, width, value);
    NotAHeader(l, 0);
    TrimUpTo(l, 0, 0);
    assert TrimSpace(l)[0] == l[0..][0] == key[0];
  }

  lemma QuotedPlaces(l: Line, i: nat, s: string)
    requires i <= |l| && l[i..] == Quoted(s)
    ensures |l| == i + 2 + |s| && l[i] == '"' && l[i + 1 + |s|] == '"'
    ensures forall j :: 0 <= j < |s| ==> l[i + 1 + j] == s[j]
  {
    assert |l[i..]| == 2 + |s|;
    assert l[i] == l[i..][0] && l[i + 1 + |s|] == l[i..][1 + |s|];
    assert forall j :: 0 <= j < |s| ==> l[i + 1 + j] == l[i..][1 + j] == s[j];
  }

  /** A plain quoted string at the end of a line leaves the state as it was. */
  lemma QuotedEnd(st: ScanState, l: Line, i: nat, s: string)
    requires i <= |l| && l[i..] == Quoted(s) && !InString(st)
    requires s != [] && s[|s| - 1] != '\\' && '"' !in s
    requires forall j :: 0 <= j < i ==> Inert(l[j])
    ensures Advance(st, l, 0) == st
  {
    QuotedPlaces(l, i, s);
    SkipInert(st, l, 0, i);
    assert l[i + 1] == s[0] && s[0] in s;
    var e := i + 1 + |s|;
    forall j | i + 1 <= j < e
      ensures l[j] != '"'
    {
      assert l[j] == s[j - i - 1] && s[j - i - 1] in s;
    }
    assert l[e - 1] == s[|s| - 1];
    SkipEscapes(l, i + 1, e);
  }

  /** Backslashes inside a quoted string skip nothing but what is inside it. */
  lemma {:induction false} SkipEscapes(l: Line, i: nat, e: nat)
    requires i <= e < |l| && l[e] == '"' && forall j :: i <= j < e ==> l[j] != '"'
    requires i < e ==> l[e - 1] != '\\'
    ensures SkipString(l, i, '"', true) == e + 1
    decreases e - i
  {
    if i < e {
      SkipEscapes(l, if l[i] == '\\' then i + 2 else i + 1, e);
    }
  }

  /** The value of an assignment: quoted by strconv.Quote, or plainly. */
  predicate StringValue(value: string, v: string) {
    value == Quote(v) || (value == Quoted(v) && v != [] && v[|v| - 1] != '\\' && '"' !in v)
  }

  lemma AssignKeepsState(st: ScanState, key: string, width: nat, value: string, v: string)
    requires PlainKey(key) && |key| <= width && StringValue(value, v) && !InString(st)
    ensures Advance(st, Assign(key, width, value), 0) == st
  {
    AssignParts(key, width, value);
    if value == Quote(v) {
      QuotedTail(st, Assign(key, width, value), width + 2, v);
    } else {
      QuotedEnd(st, Assign(key, width, value), width + 2, v);
    }
  }

  lemma AssignRootLine(key: string, width: nat, value: string, v: string)
    requires PlainKey(key) && |key| <= width && StringValue(value, v) && key in MANAGED_KEYS
    ensures RootLine(Assign(key, width, value))
  {
    AssignKey(key, width, value);
    AssignIsPlain(key, width, value);
    AssignKeepsState(FRESH, key, width, value, v);
  }

  // ---- triple quotes ----

  predicate ThreeSingles(v: string) {
    exists i :: 0 <= i < |v| && TripleAt(v, i, '\'')
  }

  lemma QuoteCharSingles(c: char)
    ensures var q := QuoteChar(c);
      forall j :: 0 <= j < |q| && q[j] == '\'' ==> |q| == 1 && c == '\''
    ensures var q := QuoteChar(c);
      forall j :: 0 <= j < |q| && q[j] == '"' ==> j == 1 && q[0] == '\\'
  {
    QuoteCharShape(c);
    HexNoQuotes(c as int, 2);
    HexNoQuotes(c as int, 4);
    HexNoQuotes(c as int, 8);
    var q := QuoteChar(c);
    assert |q| > 2 ==> forall j :: 2 <= j < |q| ==> q[j] in q[2..];
  }

  lemma {:induction false} HexNoQuotes(n: nat, k: nat)
    ensures forall c :: c in Hex(n, k) ==> c != '\'' && c != '"'
  {
    if k > 0 {
      HexNoQuotes(n / 16, k - 1);
      assert HexDigit(n % 16) != '\'';
    }
  }

  lemma BodyStartsSingle(v: string)
    ensures QuoteBody(v) != [] && QuoteBody(v)[0] == '\'' ==> v[0] == '\'' && QuoteBody(v) == ['\''] + QuoteBody(v[1..])
  {
    if v != [] {
      QuoteCharSingles(v[0]);
      QuoteCharShape(v[0]);
      assert QuoteBody(v)[0] == QuoteChar(v[0])[0];
    }
  }

  lemma {:induction false} BodySingles(v: string, i: nat)
    requires TripleAt(QuoteBody(v), i, '\'')
    ensures ThreeSingles(v)
    decreases |v|
  {
    var q, rest := QuoteChar(v[0]), QuoteBody(v[1..]);
    if i >= |q| {
      var j' := i - |q|;
      assert rest[j'] == QuoteBody(v)[i] && rest[j' + 1] == QuoteBody(v)[i + 1] && rest[j' + 2] == QuoteBody(v)[i + 2];
      BodySingles(v[1..], i - |q|);
      var j :| 0 <= j < |v[1..]| && TripleAt(v[1..], j, '\'');
      assert TripleAt(v, j + 1, '\'');
    } else {
      assert QuoteBody(v)[i] == q[i];
      QuoteCharSingles(v[0]);
      assert rest[0] == QuoteBody(v)[1] && rest[1] == QuoteBody(v)[2];
      BodyStartsSingle(v[1..]);
      BodyStartsSingle(v[2..]);
      assert v[1..][1..] == v[2..];
      assert TripleAt(v, 0, '\'');
    }
  }

  /** Inside a quoted body every double quote follows a backslash. */
  lemma {:induction false} BodyDoubles(v: string, i: nat)
    requires i < |QuoteBody(v)| && QuoteBody(v)[i] == '"'
    ensures i > 0 && QuoteBody(v)[i - 1] == '\\'
    decreases |v|
  {
    var q, rest := QuoteChar(v[0]), QuoteBody(v[1..]);
    QuoteCharSingles(v[0]);
    if i >= |q| {
      assert rest[i - |q|] == QuoteBody(v)[i];
      BodyDoubles(v[1..], i - |q|);
      assert QuoteBody(v)[i - 1] == rest[i - |q| - 1];
    } else {
      assert QuoteBody(v)[i] == q[i] && (i > 0 ==> QuoteBody(v)[i - 1] == q[i - 1]);
    }
  }

  lemma QuotedHasNoTriple(l: Line, i: nat, v: string)
    requires i <= |l| && l[i..] == Quote(v) && !ThreeSingles(v)
    requires forall j :: 0 <= j < i ==> Inert(l[j])
    ensures !HasTriple(l)
  {
    var b := QuoteBody(v);
    assert forall j :: 0 <= j < |b| ==> l[i + 1 + j] == l[i..][1 + j] == b[j];
    assert |l| == i + 2 + |b|;
    assert l[i] == l[i..][0] == '"' && l[i + 1 + |b|] == l[i..][1 + |b|] == '"';
    forall j: nat
      ensures !TripleAt(l, j, '"') && !TripleAt(l, j, '\'')
    {
      if j + 3 <= |l| && j >= i {
        QuotedPlace(l, i, v, j);
      }
    }
  }

  lemma QuotedPlace(l: Line, i: nat, v: string, j: nat)
    requires |l| == i + 2 + |QuoteBody(v)| && !ThreeSingles(v)
    requires l[i] == l[i + 1 + |QuoteBody(v)|] == '"'
    requires forall k :: 0 <= k < |QuoteBody(v)| ==> l[i + 1 + k] == QuoteBody(v)[k]
    requires i <= j && j + 3 <= |l|
    ensures !TripleAt(l, j, '"') && !TripleAt(l, j, '\'')
  {
    var b := QuoteBody(v);
    if TripleAt(l, j, '"') {
      DoublesInBody(l, i, b, j);
      BodyDoubles(v, j - i);
    }
    if TripleAt(l, j, '\'') {
      SinglesInBody(l, i, b, j);
      BodySingles(v, j - i - 1);
    }
  }

  lemma DoublesInBody(l: Line, i: nat, b: string, j: nat)
    requires |l| == i + 2 + |b| && forall k :: 0 <= k < |b| ==> l[i + 1 + k] == b[k]
    requires i <= j && TripleAt(l, j, '"')
    ensures j - i < |b| && b[j - i] == '"' && (j > i ==> b[j - i - 1] == '"')
  {
    assert l[i + 1 + (j - i)] == b[j - i];
    if j > i {
      assert l[i + 1 + (j - i - 1)] == b[j - i - 1];
    }
  }

  lemma SinglesInBody(l: Line, i: nat, b: string, j: nat)
    requires |l| == i + 2 + |b| && l[i] == l[i + 1 + |b|] == '"'
    requires forall k :: 0 <= k < |b| ==> l[i + 1 + k] == b[k]
    requires i <= j && TripleAt(l, j, '\'')
    ensures j > i && TripleAt(b, j - i - 1, '\'')
  {
    var k := j - i - 1;
    assert l[j] == '\'' && l[j + 1] == '\'' && l[j + 2] == '\'';
    assert l[i + 1 + k] == b[k] && l[i + 1 + (k + 1)] == b[k + 1] && l[i + 1 + (k + 2)] == b[k + 2];
  }

  lemma PlainHasNoTriple(l: Line, i: nat, s: string)
    requires i <= |l| && l[i..] == Quoted(s)
    requires |s| > 1 && forall c :: c in s ==> c != '"' && c != '\''
    requires forall j :: 0 <= j < i ==> Inert(l[j])
    ensures !HasTriple(l)
  {
    assert forall j :: 0 <= j < |s| ==> l[i + 1 + j] == l[i..][1 + j] == s[j] && s[j] in s;
    assert |l| == i + 2 + |s|;
  }

  lemma AssignNeutral(key: string, width: nat, value: string, v: string)
    requires PlainKey(key) && |key| <= width && StringValue(value, v)
    requires !HasTriple(Assign(key, width, value))
    ensures Neutral(Assign(key, width, value))
  {
    forall st
      ensures Advance(st, Assign(key, width, value), 0) == st
    {
      if InString(st) {
        StaysInString(st, Assign(key, width, value), 0);
      } else {
        AssignKeepsState(st, key, width, value, v);
      }
    }
  }

  // ---- the header ----

  lemma {:induction false} CloseAfter(s: string, i: nat, k: nat)
    requires i <= k < |s| && s[k] == ']' && forall j :: i <= j < k ==> Inert(s[j])
    ensures CloseIndex(s, i) == k
    decreases k - i
  {
    if i < k {
      CloseAfter(s, i + 1, k);
    }
  }

  /** A bracketed name with nothing special in it is a header of that name, and
      closes the bracket it opens. */
  lemma BracketHeader(name: string)
    requires name != [] && forall j :: 0 <= j < |name| ==> Inert(name[j])
    requires !IsSpace(name[0]) && !IsSpace(name[|name| - 1])
    ensures Shape("[" + name + "]") == Some(name)
    ensures Neutral("[" + name + "]")
  {
    var l := "[" + name + "]";
    TrimUpTo(l, 0, |l| - 1);
    assert l[0..] == l;
    assert forall j :: 0 <= j < |name| ==> l[1 + j] == name[j];
    assert l[1] == name[0];
    CloseAfter(l, 1, |l| - 1);
    assert l[1..|l| - 1] == name;
    TrimUpTo(name, 0, |name| - 1);
    assert name[0..] == name;
    assert l[|l|..] == [];
    assert !HasTriple(l);
    forall st
      ensures Advance(st, l, 0) == st
    {
      if InString(st) {
        StaysInString(st, l, 0);
      } else {
        var deeper := st.(depth := st.depth + 1);
        SkipInert(deeper, l, 1, |l| - 1);
      }
    }
  }

  // ---- the rendered fragment ----

  /** An account name that the renderer, which does not quote it, puts into one line. */
  predicate Renderable(windowsUser: string) {
    '"' !in windowsUser && '\n' !in windowsUser
  }

  /** Nothing in the rendered table could end a string left open above it. */
  predicate Harmless(baseURL: string, token: string) {
    !ThreeSingles(TrimSlashes(baseURL) + "/v1") && !ThreeSingles(token)
  }

  lemma ModelIsRootLine(allowed: seq<string>)
    ensures RootLine(ModelLine(allowed)) && KeyOf(ModelLine(allowed)) == Some("model")
  {
    var m := if allowed == [] then "" else allowed[0];
    AssignRootLine("model", 19, Quote(m), m);
    AssignKey("model", 19, Quote(m));
  }

  lemma ProviderIsRootLine()
    ensures RootLine(ProviderLine()) && KeyOf(ProviderLine()) == Some("model_provider")
  {
    AssignRootLine("model_provider", 19, Quoted("gateway"), "gateway");
    AssignKey("model_provider", 19, Quoted("gateway"));
  }

  lemma CatalogIsRootLine(windowsUser: string)
    requires '"' !in windowsUser
    ensures RootLine(CatalogLine(windowsUser))
  {
    var path := CatalogPath(windowsUser);
    forall c | c in path
      ensures c != '"'
    {
      assert c in "C:/Users/" || c in windowsUser || c in "/.codex/models.json";
    }
    assert path[|path| - 1] == "/.codex/models.json"[18] == 'n';
    AssignRootLine("model_catalog_json", 19, Quoted(path), path);
  }

  lemma CatalogKey(windowsUser: string)
    ensures KeyOf(CatalogLine(windowsUser)) == Some("model_catalog_json")
  {
    AssignKey("model_catalog_json", 19, Quoted(CatalogPath(windowsUser)));
  }

  lemma SearchIsRootLine()
    ensures RootLine(SearchLine()) && KeyOf(SearchLine()) == Some("web_search")
  {
    AssignRootLine("web_search", 19, Quoted("live"), "live");
    AssignKey("web_search", 19, Quoted("live"));
  }

  lemma TimeoutIsPlainKey()
    ensures PlainKey("stream_idle_timeout_ms")
  {}

  lemma DigitsKeepState(key: string, width: nat, value: string)
    requires PlainKey(key) && |key| <= width && forall j :: 0 <= j < |value| ==> Inert(value[j])
    ensures Advance(FRESH, Assign(key, width, value), 0) == FRESH
  {
    var l := Assign(key, width, value);
    AssignParts(key, width, value);
    assert forall j :: width + 2 <= j < |l| ==> l[j] == l[width + 2..][j - width - 2];
    SkipInert(FRESH, l, 0, |l|);
  }

  lemma TimeoutIsRootLine()
    ensures RootLine(TimeoutLine()) && KeyOf(TimeoutLine()) == Some("stream_idle_timeout_ms")
  {
    TimeoutIsPlainKey();
    AssignKey("stream_idle_timeout_ms", 23, "7200000");
    AssignIsPlain("stream_idle_timeout_ms", 23, "7200000");
    DigitsKeepState("stream_idle_timeout_ms", 23, "7200000");
  }

  /** A line of the table's body. */
  ghost predicate BodyLine(l: Line) {
    Advance(FRESH, l, 0) == FRESH && Shape(l).None? && !Filler(l)
  }

  lemma QuotedBodyLine(key: string, width: nat, v: string)
    requires PlainKey(key) && |key| <= width
    ensures BodyLine(Assign(key, width, Quote(v)))
    ensures !ThreeSingles(v) ==> Neutral(Assign(key, width, Quote(v)))
  {
    AssignParts(key, width, Quote(v));
    AssignKeepsState(FRESH, key, width, Quote(v), v);
    AssignIsPlain(key, width, Quote(v));
    if !ThreeSingles(v) {
      QuotedHasNoTriple(Assign(key, width, Quote(v)), width + 2, v);
      AssignNeutral(key, width, Quote(v), v);
    }
  }

  lemma PlainBodyLine(key: string, width: nat, s: string)
    requires PlainKey(key) && |key| <= width
    requires |s| > 1 && forall c :: c in s ==> c != '"' && c != '\'' && c != '\\'
    ensures BodyLine(Assign(key, width, Quoted(s))) && Neutral(Assign(key, width, Quoted(s)))
  {
    AssignParts(key, width, Quoted(s));
    assert s[|s| - 1] in s;
    AssignKeepsState(FRESH, key, width, Quoted(s), s);
    PlainHasNoTriple(Assign(key, width, Quoted(s)), width + 2, s);
    AssignNeutral(key, width, Quoted(s), s);
    AssignIsPlain(key, width, Quoted(s));
  }

  lemma {:induction false} BodyCloses(ls: seq<Line>)
    requires forall l :: l in ls ==> BodyLine(l)
    ensures EndState(FRESH, ls, false) == FRESH
  {
    if ls != [] {
      assert BodyLine(ls[0]) by {
        assert ls[0] in ls;
      }
      BodyCloses(ls[1..]);
    }
  }

  lemma {:induction false} NeutralLines(ls: seq<Line>)
    requires forall l :: l in ls ==> Neutral(l) && Shape(l).None?
    ensures NeutralBlock(ls)
  {
    if ls != [] {
      assert Neutral(ls[0]) && Shape(ls[0]).None? by {
        assert ls[0] in ls;
      }
      NeutralLines(ls[1..]);
      forall st
        ensures EndState(st, ls, false) == st
      {
        assert NextState(st, ls[0], false) == st;
      }
    }
  }

  lemma UrlIsBodyLine(baseURL: string)
    ensures BodyLine(UrlLine(baseURL))
    ensures !ThreeSingles(TrimSlashes(baseURL) + "/v1") ==> Neutral(UrlLine(baseURL))
  {
    QuotedBodyLine("base_url", 9, TrimSlashes(baseURL) + "/v1");
  }

  lemma TokenIsBodyLine(token: string)
    ensures BodyLine(TokenLine(token)) && (!ThreeSingles(token) ==> Neutral(TokenLine(token)))
  {
    QuotedBodyLine("experimental_bearer_token", 26, token);
  }

  lemma FixedBodyLines()
    ensures BodyLine(NameLine()) && BodyLine(WireLine()) && Neutral(NameLine()) && Neutral(WireLine())
  {
    PlainBodyLine("name", 9, "Gateway");
    PlainBodyLine("wire_api", 9, "responses");
  }

  lemma HeaderRendered()
    ensures Shape("[" + MANAGED_TABLE + "]") == Some(MANAGED_TABLE) && Neutral("[" + MANAGED_TABLE + "]")
  {
    BracketHeader(MANAGED_TABLE);
  }

  /** A fragment without notes is valid when its lines are. */
  lemma FragmentOfLines(f: Fragment)
    requires f.root != [] && (forall l :: l in f.root ==> RootLine(l)) && f.notes == []
    requires Shape(f.header) == Some(MANAGED_TABLE) && Neutral(f.header)
    requires f.body != [] && forall l :: l in f.body ==> BodyLine(l)
    ensures f.Valid()
  {
    BodyCloses(f.body);
    assert f.body[|f.body| - 1] in f.body;
    assert forall l :: l in f.body && Comment(l) ==> Filler(l);
  }

  lemma FromLines(a: Line, b: Line, c: Line, d: Line, e: Line, header: Line, w: Line, x: Line, y: Line, z: Line)
    requires RootLine(a) && RootLine(b) && RootLine(c) && RootLine(d) && RootLine(e)
    requires Shape(header) == Some(MANAGED_TABLE) && Neutral(header)
    requires BodyLine(w) && BodyLine(x) && BodyLine(y) && BodyLine(z)
    ensures Fragment([a, b, c, d, e], [], header, [w, x, y, z]).Valid()
  {
    var f := Fragment([a, b, c, d, e], [], header, [w, x, y, z]);
    AllRootLines([], a);
    AllRootLines([a], b);
    AllRootLines([a, b], c);
    AllRootLines([a, b, c], d);
    AllRootLines([a, b, c, d], e);
    AllBodyLines([], w);
    AllBodyLines([w], x);
    AllBodyLines([w, x], y);
    AllBodyLines([w, x, y], z);
    assert [a, b, c, d] + [e] == f.root && [w, x, y] + [z] == f.body;
    FragmentOfLines(f);
  }

  lemma AllRootLines(ls: seq<Line>, l: Line)
    requires (forall x :: x in ls ==> RootLine(x)) && RootLine(l)
    ensures forall x :: x in ls + [l] ==> RootLine(x)
  {}

  lemma AllBodyLines(ls: seq<Line>, l: Line)
    requires (forall x :: x in ls ==> BodyLine(x)) && BodyLine(l)
    ensures forall x :: x in ls + [l] ==> BodyLine(x)
  {}

  predicate NoModel(ls: seq<Line>) {
    forall l :: l in ls ==> KeyOf(l) != Some("model")
  }

  lemma CanonicalFrom(f: Fragment, first: Line, rest: seq<Line>, m: string)
    requires f.root == [first] + rest && NoModel(rest) && SetValue(first, m) == first
    ensures Canonical(f)
  {
    assert forall i :: 0 < i < |f.root| ==> f.root[i] == rest[i - 1] && rest[i - 1] in rest;
    forall l | l in f.root && KeyOf(l) == Some("model")
      ensures exists v :: SetValue(l, v) == l
    {
      assert l == first;
    }
  }

  /** Every rendered fragment has the shape the merge relies on, for any base URL,
      models and token, and any account name without a double quote. */
  lemma RenderedIsValid(baseURL: string, windowsUser: string, allowed: seq<string>, token: string)
    requires '"' !in windowsUser
    ensures Rendered(baseURL, windowsUser, allowed, token).Valid()
  {
    ModelIsRootLine(allowed);
    ProviderIsRootLine();
    CatalogIsRootLine(windowsUser);
    SearchIsRootLine();
    TimeoutIsRootLine();
    FixedBodyLines();
    UrlIsBodyLine(baseURL);
    TokenIsBodyLine(token);
    HeaderRendered();
    FromLines(ModelLine(allowed), ProviderLine(), CatalogLine(windowsUser), SearchLine(), TimeoutLine(),
      "[" + MANAGED_TABLE + "]", NameLine(), UrlLine(baseURL), WireLine(), TokenLine(token));
  }

  /** And leaves open what is open above it, unless the base URL or the token holds
      three single quotes in a row. */
  lemma RenderedIsSealed(baseURL: string, windowsUser: string, allowed: seq<string>, token: string)
    requires Harmless(baseURL, token)
    ensures Rendered(baseURL, windowsUser, allowed, token).Sealed()
  {
    FixedBodyLines();
    UrlIsBodyLine(baseURL);
    TokenIsBodyLine(token);
    FourNeutral(NameLine(), UrlLine(baseURL), WireLine(), TokenLine(token));
  }

  lemma FourNeutral(w: Line, x: Line, y: Line, z: Line)
    requires Neutral(w) && Neutral(x) && Neutral(y) && Neutral(z)
    requires BodyLine(w) && BodyLine(x) && BodyLine(y) && BodyLine(z)
    ensures NeutralBlock([w, x, y, z])
  {
    forall l | l in [w, x, y, z]
      ensures Neutral(l) && Shape(l).None?
    {
      assert l == w || l == x || l == y || l == z;
    }
    NeutralLines([w, x, y, z]);
  }

  lemma ModelLineIsWritten(allowed: seq<string>)
    ensures SetValue(ModelLine(allowed), if allowed == [] then "" else allowed[0]) == ModelLine(allowed)
  {
    var m := if allowed == [] then "" else allowed[0];
    var l := ModelLine(allowed);
    AssignParts("model", 19, Quote(m));
    IndexIs(l, '=', 19);
    assert l == l[..20] + l[20..21] + l[21..];
  }

  /** Its keys are distinct, and its model line is as a kept model would be written. */
  lemma RenderedIsCanonical(baseURL: string, windowsUser: string, allowed: seq<string>, token: string)
    ensures Canonical(Rendered(baseURL, windowsUser, allowed, token))
  {
    ModelLineIsWritten(allowed);
    NotModelLines(windowsUser);
    CanonicalOfFive(Rendered(baseURL, windowsUser, allowed, token), ModelLine(allowed), ProviderLine(),
      CatalogLine(windowsUser), SearchLine(), TimeoutLine(), if allowed == [] then "" else allowed[0]);
  }

  lemma NotModelLines(windowsUser: string)
    ensures KeyOf(ProviderLine()) != Some("model") && KeyOf(CatalogLine(windowsUser)) != Some("model")
    ensures KeyOf(SearchLine()) != Some("model") && KeyOf(TimeoutLine()) != Some("model")
  {
    ProviderIsRootLine();
    CatalogKey(windowsUser);
    SearchIsRootLine();
    TimeoutIsRootLine();
    assert |"model"| == 5 && |"model_provider"| == 14 && |"model_catalog_json"| == 18;
    assert |"web_search"| == 10 && |"stream_idle_timeout_ms"| == 22;
  }

  lemma NoModelInFour(b: Line, c: Line, d: Line, e: Line)
    requires KeyOf(b) != Some("model") && KeyOf(c) != Some("model") && KeyOf(d) != Some("model")
      && KeyOf(e) != Some("model")
    ensures NoModel([b, c, d, e])
  {
    forall l | l in [b, c, d, e]
      ensures KeyOf(l) != Some("model")
    {
      assert l == b || l == c || l == d || l == e;
    }
  }

  lemma CanonicalOfFive(f: Fragment, a: Line, b: Line, c: Line, d: Line, e: Line, m: string)
    requires f.root == [a, b, c, d, e] && SetValue(a, m) == a
    requires KeyOf(b) != Some("model") && KeyOf(c) != Some("model") && KeyOf(d) != Some("model")
      && KeyOf(e) != Some("model")
    ensures Canonical(f)
  {
    NoModelInFour(b, c, d, e);
    assert f.root == [a] + [b, c, d, e];
    CanonicalFrom(f, a, [b, c, d, e], m);
  }

  // ---- the rendered file, delivered again ----

  lemma AssignIsClean(key: string, width: nat, value: string)
    requires PlainKey(key) && |key| <= width
    requires value != [] && '\n' !in value && value[|value| - 1] != '\r'
    ensures Clean(Assign(key, width, value))
  {
    var l := Assign(key, width, value);
    assert l[|l| - 1] == value[|value| - 1];
    assert forall c :: c in l ==> c in key || c == ' ' || c == '=' || c in value;
  }

  lemma QuoteIsClean(v: string)
    ensures '\n' !in Quote(v) && Quote(v)[|Quote(v)| - 1] == '"'
  {
    QuoteHasNoNewline(v);
    assert forall c :: c in Quote(v) ==> c == '"' || c in QuoteBody(v);
  }

  lemma QuotedIsClean(s: string)
    requires '\n' !in s
    ensures '\n' !in Quoted(s) && Quoted(s)[|Quoted(s)| - 1] == '"'
  {
    assert forall c :: c in Quoted(s) ==> c == '"' || c in s;
  }

  lemma QuoteLineIsClean(key: string, width: nat, v: string)
    requires PlainKey(key) && |key| <= width
    ensures Clean(Assign(key, width, Quote(v)))
  {
    QuoteIsClean(v);
    AssignIsClean(key, width, Quote(v));
  }

  lemma QuotedLineIsClean(key: string, width: nat, s: string)
    requires PlainKey(key) && |key| <= width && '\n' !in s
    ensures Clean(Assign(key, width, Quoted(s)))
  {
    QuotedIsClean(s);
    AssignIsClean(key, width, Quoted(s));
  }

  lemma ModelIsClean(allowed: seq<string>)
    ensures Clean(ModelLine(allowed))
  {
    QuoteLineIsClean("model", 19, if allowed == [] then "" else allowed[0]);
  }

  lemma UrlIsClean(baseURL: string)
    ensures Clean(UrlLine(baseURL))
  {
    QuoteLineIsClean("base_url", 9, TrimSlashes(baseURL) + "/v1");
  }

  lemma TokenIsClean(token: string)
    ensures Clean(TokenLine(token))
  {
    QuoteLineIsClean("experimental_bearer_token", 26, token);
  }

  lemma CatalogIsClean(windowsUser: string)
    requires '\n' !in windowsUser
    ensures Clean(CatalogLine(windowsUser))
  {
    assert forall c :: c in CatalogPath(windowsUser) ==>
      c in "C:/Users/" || c in windowsUser || c in "/.codex/models.json";
    QuotedLineIsClean("model_catalog_json", 19, CatalogPath(windowsUser));
  }

  lemma FixedRootIsClean()
    ensures Clean(ProviderLine()) && Clean(SearchLine())
  {
    QuotedLineIsClean("model_provider", 19, "gateway");
    QuotedLineIsClean("web_search", 19, "live");
  }

  lemma TimeoutIsClean()
    ensures Clean(TimeoutLine())
  {
    AssignIsClean("stream_idle_timeout_ms", 23, "7200000");
  }

  lemma FixedBodyIsClean()
    ensures Clean(NameLine()) && Clean(WireLine())
  {
    QuotedLineIsClean("name", 9, "Gateway");
    QuotedLineIsClean("wire_api", 9, "responses");
  }

  lemma HeaderIsClean()
    ensures Clean("[" + MANAGED_TABLE + "]")
  {}

  lemma CleanFromLines(a: Line, b: Line, c: Line, d: Line, e: Line, h: Line, m: Line, n: Line, o: Line, p: Line)
    requires Clean(a) && Clean(b) && Clean(c) && Clean(d) && Clean(e)
    requires Clean(h) && Clean(m) && Clean(n) && Clean(o) && Clean(p)
    ensures CleanLines(Fragment([a, b, c, d, e], [], h, [m, n, o, p]).AllLines())
  {}

  /** What is rendered is read back line by line. */
  lemma RenderedIsClean(baseURL: string, windowsUser: string, allowed: seq<string>, token: string)
    requires '\n' !in windowsUser
    ensures CleanLines(Rendered(baseURL, windowsUser, allowed, token).AllLines())
  {
    ModelIsClean(allowed);
    FixedRootIsClean();
    CatalogIsClean(windowsUser);
    TimeoutIsClean();
    HeaderIsClean();
    FixedBodyIsClean();
    UrlIsClean(baseURL);
    TokenIsClean(token);
    CleanFromLines(ModelLine(allowed), ProviderLine(), CatalogLine(windowsUser), SearchLine(), TimeoutLine(),
      "[" + MANAGED_TABLE + "]", NameLine(), UrlLine(baseURL), WireLine(), TokenLine(token));
  }
  /** What a merge of a rendered fragment asks for: that nothing inside a value of the
      file leads up to a header, and, when what is kept of it does not close, that
      nothing in the fragment closes it. */
  predicate Receives(existing: string, baseURL: string, token: string) {
    Scannable(existing) ==>
      Whole(ReadBack(existing)) && (Closes(Kept(ReadBack(existing))) || Harmless(baseURL, token))
  }

  lemma RenderedIsMergeable(
    existing: string, baseURL: string, windowsUser: string, allowed: seq<string>, token: string)
    requires Renderable(windowsUser) && Receives(existing, baseURL, token)
    ensures Mergeable(existing, Rendered(baseURL, windowsUser, allowed, token))
  {
    RenderedIsValid(baseURL, windowsUser, allowed, token);
    if Harmless(baseURL, token) {
      RenderedIsSealed(baseURL, windowsUser, allowed, token);
    }
  }

  /** What the console renders, delivered again: the same bytes exactly when it
      repeats the first delivery. */
  lemma RenderedRedelivery(
    existing: string, baseURL: string, windowsUser: string, allowed: seq<string>, token: string)
    requires Renderable(windowsUser) && Receives(existing, baseURL, token)
    ensures var incoming := RenderGatewayConfig(baseURL, windowsUser, allowed, token);
      var merged := MergeText(Some(existing), incoming, allowed);
      MergeText(Some(merged), incoming, allowed) == merged
      <==> Repeats(existing, Rendered(baseURL, windowsUser, allowed, token), allowed)
  {
    RenderedIsValid(baseURL, windowsUser, allowed, token);
    RenderedIsMergeable(existing, baseURL, windowsUser, allowed, token);
    RenderedIsCanonical(baseURL, windowsUser, allowed, token);
    RenderedIsClean(baseURL, windowsUser, allowed, token);
    RedeliveryOfContents(existing, Rendered(baseURL, windowsUser, allowed, token), allowed);
  }

  // ---- what the rendered fragment says ----

  /** The slashes at the end go, and nothing else does. */
  lemma {:induction false} TrimSlashesMeaning(s: string)
    ensures TrimSlashes(s) <= s && forall j :: |TrimSlashes(s)| <= j < |s| ==> s[j] == '/'
    ensures TrimSlashes(s) != [] ==> TrimSlashes(s)[|TrimSlashes(s)| - 1] != '/'
  {
    if s != [] && s[|s| - 1] == '/' {
      TrimSlashesMeaning(s[..|s| - 1]);
    }
  }

  /** A rendered line assigns its value to its key, and is read back as it. */
  lemma AssignRead(key: string, width: nat, v: string)
    requires PlainKey(key) && |key| <= width
    ensures var l := Assign(key, width, Quote(v));
      KeyOf(l) == Some(key) && ReadValue(TrimSpace(l)) == if HasHash(v) then None else Some(v)
  {
    AssignKey(key, width, Quote(v));
    AssignParts(key, width, Quote(v));
    QuoteEnds(v);
    var l := Assign(key, width, Quote(v));
    assert l[width + 1..] == " " + Quote(v);
    ReadsTail(l, width, Quote(v));
    QuotedValue(v);
  }

  /** The first model, the base URL with its version and the token are in the fragment,
      each under its own key. */
  lemma ModelSaid(allowed: seq<string>)
    requires allowed != []
    ensures KeyOf(ModelLine(allowed)) == Some("model")
    ensures ReadValue(TrimSpace(ModelLine(allowed))) == if HasHash(allowed[0]) then None else Some(allowed[0])
  {
    AssignRead("model", 19, allowed[0]);
  }

  lemma UrlSaid(baseURL: string)
    ensures KeyOf(UrlLine(baseURL)) == Some("base_url")
    ensures var url := TrimSlashes(baseURL) + "/v1";
      ReadValue(TrimSpace(UrlLine(baseURL))) == if HasHash(url) then None else Some(url)
  {
    AssignRead("base_url", 9, TrimSlashes(baseURL) + "/v1");
  }

  lemma TokenSaid(token: string)
    ensures KeyOf(TokenLine(token)) == Some("experimental_bearer_token")
    ensures ReadValue(TrimSpace(TokenLine(token))) == if HasHash(token) then None else Some(token)
  {
    AssignRead("experimental_bearer_token", 26, token);
  }

  // ---- the identity of the rendered fragment ----

  lemma TrimmedAlready(l: Line)
    requires l != [] && !IsSpace(l[0]) && !IsSpace(l[|l| - 1])
    ensures TrimSpace(l) == l && !Blank(l)
  {
    assert Indent(l) == 0 && l[0..] == l;
    TrimRightMeaning(l);
  }

  /** Nothing to trim, and no comment. */
  predicate Tight(l: Line) {
    l != [] && !IsSpace(l[0]) && l[0] != '#' && !IsSpace(l[|l| - 1])
  }

  lemma TightTells(l: Line, ls: seq<Line>, all: seq<Line>)
    requires Tight(l) && Telling(ls) == ls && all == [l] + ls
    ensures Telling(all) == all
  {
    TrimmedAlready(l);
    assert Indent(l) == 0;
    assert all[1..] == ls;
  }

  lemma TightFour(w: Line, x: Line, y: Line, z: Line)
    requires Tight(w) && Tight(x) && Tight(y) && Tight(z)
    ensures Telling([w, x, y, z]) == [w, x, y, z]
  {
    TightTells(z, [], [z]);
    TightTells(y, [z], [y, z]);
    TightTells(x, [y, z], [x, y, z]);
    TightTells(w, [x, y, z], [w, x, y, z]);
  }

  lemma AssignTight(key: string, width: nat, value: string)
    requires PlainKey(key) && |key| <= width && value != [] && !IsSpace(value[|value| - 1])
    ensures Tight(Assign(key, width, value))
  {
    AssignParts(key, width, value);
    var l := Assign(key, width, value);
    assert l[|l| - 1] == value[|value| - 1];
  }

  lemma UrlTight(baseURL: string)
    ensures Tight(UrlLine(baseURL))
  {
    QuoteEnds(TrimSlashes(baseURL) + "/v1");
    AssignTight("base_url", 9, Quote(TrimSlashes(baseURL) + "/v1"));
  }

  lemma TokenTight(token: string)
    ensures Tight(TokenLine(token))
  {
    QuoteEnds(token);
    AssignTight("experimental_bearer_token", 26, Quote(token));
  }

  lemma FixedTight()
    ensures Tight(NameLine()) && Tight(WireLine()) && Tight(ProviderLine())
  {
    AssignTight("name", 9, Quoted("Gateway"));
    AssignTight("wire_api", 9, Quoted("responses"));
    AssignTight("model_provider", 19, Quoted("gateway"));
  }

  lemma BodyTells(baseURL: string, token: string)
    ensures var body := [NameLine(), UrlLine(baseURL), WireLine(), TokenLine(token)];
      Telling(body) == body
  {
    FixedTight();
    UrlTight(baseURL);
    TokenTight(token);
    TightFour(NameLine(), UrlLine(baseURL), WireLine(), TokenLine(token));
  }

  lemma OneProvider(a: Line, b: Line, c: Line, d: Line, e: Line)
    requires KeyOf(a) != Some("model_provider") && KeyOf(b) == Some("model_provider")
    requires KeyOf(c) != Some("model_provider") && KeyOf(d) != Some("model_provider")
    requires KeyOf(e) != Some("model_provider")
    ensures Providers([a, b, c, d, e]) == [b]
  {
    assert [a, b, c, d, e][1..] == [b, c, d, e] && [b, c, d, e][1..] == [c, d, e];
    assert [c, d, e][1..] == [d, e] && [d, e][1..] == [e] && [e][1..] == [];
    assert Providers([e]) == [];
    assert Providers([d, e]) == [];
    assert Providers([c, d, e]) == [];
    assert Providers([b, c, d, e]) == [b];
  }

  lemma NotProviderLines(windowsUser: string, allowed: seq<string>)
    ensures KeyOf(ModelLine(allowed)) != Some("model_provider")
    ensures KeyOf(CatalogLine(windowsUser)) != Some("model_provider")
    ensures KeyOf(SearchLine()) != Some("model_provider") && KeyOf(TimeoutLine()) != Some("model_provider")
  {
    ModelIsRootLine(allowed);
    CatalogKey(windowsUser);
    SearchIsRootLine();
    TimeoutIsRootLine();
    assert |"model"| == 5 && |"model_provider"| == 14 && |"model_catalog_json"| == 18;
    assert |"web_search"| == 10 && |"stream_idle_timeout_ms"| == 22;
  }

  lemma RootTells(windowsUser: string, allowed: seq<string>)
    ensures var root := [ModelLine(allowed), ProviderLine(), CatalogLine(windowsUser), SearchLine(), TimeoutLine()];
      Telling(Providers(root)) == [ProviderLine()]
  {
    NotProviderLines(windowsUser, allowed);
    ProviderIsRootLine();
    OneProvider(ModelLine(allowed), ProviderLine(), CatalogLine(windowsUser), SearchLine(), TimeoutLine());
    FixedTight();
    TightTells(ProviderLine(), [], [ProviderLine()]);
  }

  function Identifying(baseURL: string, token: string): seq<Line> {
    [ProviderLine(), "[" + MANAGED_TABLE + "]", NameLine(), UrlLine(baseURL), WireLine(), TokenLine(token)]
  }

  /** The rendered identity: the provider, the header, and the four lines of the table. */
  lemma RenderedTells(baseURL: string, windowsUser: string, allowed: seq<string>, token: string)
    requires '"' !in windowsUser
    ensures Identity(None, Scan(Rendered(baseURL, windowsUser, allowed, token).AllLines()))
      == Join(Identifying(baseURL, token))
  {
    var f := Rendered(baseURL, windowsUser, allowed, token);
    RenderedIsValid(baseURL, windowsUser, allowed, token);
    RootTells(windowsUser, allowed);
    BodyTells(baseURL, token);
    TrimmedAlready("[" + MANAGED_TABLE + "]");
    TellsTight(f, ProviderLine());
    SixLines(ProviderLine(), f.header, NameLine(), UrlLine(baseURL), WireLine(), TokenLine(token));
  }

  lemma TellsTight(f: Fragment, provider: Line)
    requires f.Valid() && Telling(Providers(f.root)) == [provider] && TrimSpace(f.header) == f.header
    requires Telling(f.body) == f.body
    ensures Identity(None, Scan(f.AllLines())) == Join([provider] + ([f.header] + f.body))
  {
    FragmentTells(f);
  }

  lemma SixLines(a: Line, b: Line, c: Line, d: Line, e: Line, g: Line)
    ensures [a] + ([b] + [c, d, e, g]) == [a, b, c, d, e, g]
  {}

  lemma IdentifyingOneLiners(baseURL: string, token: string)
    ensures OneLiners(Identifying(baseURL, token))
  {
    FixedRootIsClean();
    HeaderIsClean();
    FixedBodyIsClean();
    UrlIsClean(baseURL);
    TokenIsClean(token);
  }

  lemma QuoteInjective(v: string, w: string)
    requires Quote(v) == Quote(w)
    ensures v == w
  {
    UnquoteQuote(v);
    UnquoteQuote(w);
  }

  lemma SameLine(key: string, width: nat, v: string, w: string)
    requires PlainKey(key) && |key| <= width && Assign(key, width, Quote(v)) == Assign(key, width, Quote(w))
    ensures v == w
  {
    AssignParts(key, width, Quote(v));
    AssignParts(key, width, Quote(w));
    QuoteInjective(v, w);
  }

  lemma SameUrl(u: string, u': string)
    requires UrlLine(u) == UrlLine(u')
    ensures TrimSlashes(u) == TrimSlashes(u')
  {
    SameLine("base_url", 9, TrimSlashes(u) + "/v1", TrimSlashes(u') + "/v1");
    var a, b := TrimSlashes(u) + "/v1", TrimSlashes(u') + "/v1";
    assert a[..|a| - 3] == TrimSlashes(u) && b[..|b| - 3] == TrimSlashes(u');
  }

  lemma RenderedIdentityText(baseURL: string, windowsUser: string, allowed: seq<string>, token: string)
    requires Renderable(windowsUser) && Fits(Rendered(baseURL, windowsUser, allowed, token).AllLines())
    ensures IdentityText(RenderGatewayConfig(baseURL, windowsUser, allowed, token)) == Join(Identifying(baseURL, token))
  {
    var f := Rendered(baseURL, windowsUser, allowed, token);
    RenderedIsClean(baseURL, windowsUser, allowed, token);
    FragmentScannable(f);
    CleanRoundTrip(f.AllLines());
    RenderedTells(baseURL, windowsUser, allowed, token);
  }

  /** Two rendered fragments have one identity exactly when they lead to the same base
      URL with the same token, whatever models, account and catalog they carry. */
  lemma SameIdentity(
    u: string, w: string, a: seq<string>, t: string, u': string, w': string, a': seq<string>, t': string)
    requires Renderable(w) && Fits(Rendered(u, w, a, t).AllLines())
    requires Renderable(w') && Fits(Rendered(u', w', a', t').AllLines())
    ensures IdentityText(RenderGatewayConfig(u, w, a, t)) == IdentityText(RenderGatewayConfig(u', w', a', t'))
      <==> TrimSlashes(u) == TrimSlashes(u') && t == t'
  {
    RenderedIdentityText(u, w, a, t);
    RenderedIdentityText(u', w', a', t');
    IdentifyingOneLiners(u, t);
    IdentifyingOneLiners(u', t');
    if Join(Identifying(u, t)) == Join(Identifying(u', t')) {
      JoinInjective(Identifying(u, t), Identifying(u', t'));
      IdentifyingInjective(u, t, u', t');
    }
  }

  lemma IdentifyingInjective(u: string, t: string, u': string, t': string)
    requires Identifying(u, t) == Identifying(u', t')
    ensures TrimSlashes(u) == TrimSlashes(u') && t == t'
  {
    var x, y := Identifying(u, t), Identifying(u', t');
    assert x[3] == y[3] && x[5] == y[5];
    SameUrl(u, u');
    SameLine("experimental_bearer_token", 26, t, t');
  }

  // ---- the rest of what it says ----

  /** Characters that a quoted string holds as they are, and no blank. */
  predicate Unescaped(s: string) {
    '"' !in s && '\\' !in s && '\n' !in s && ' ' !in s
  }

  lemma {:induction false} PlainTail(s: string)
    requires Unescaped(s)
    ensures UnquoteTail(s + ['"']) == Some(s)
  {
    if s != [] {
      assert s[0] in s && forall c :: c in s[1..] ==> c in s;
      assert (s + ['"'])[0] == s[0] && (s + ['"'])[1..] == s[1..] + ['"'];
      PlainTail(s[1..]);
      assert [s[0]] + s[1..] == s;
    }
  }

  lemma PlainValue(s: string)
    requires s != [] && Unescaped(s)
    ensures ValueOf(CutComment(Quoted(s))) == Some(s)
  {
    var q := Quoted(s);
    assert q[1..] == s + ['"'];
    PlainTail(s);
    assert forall k :: 0 <= k < |s| ==> q[k + 1] == s[k] && s[k] in s;
    assert HashIndex(q, 0) == |q|;
  }

  lemma PlainRead(key: string, width: nat, s: string)
    requires PlainKey(key) && |key| <= width && s != [] && Unescaped(s)
    ensures var l := Assign(key, width, Quoted(s)); KeyOf(l) == Some(key) && ReadValue(TrimSpace(l)) == Some(s)
  {
    AssignKey(key, width, Quoted(s));
    AssignParts(key, width, Quoted(s));
    var l := Assign(key, width, Quoted(s));
    assert l[width + 1..] == " " + Quoted(s);
    assert Quoted(s)[|Quoted(s)| - 1] == '"';
    ReadsTail(l, width, Quoted(s));
    PlainValue(s);
  }

  /** The employee's catalog, by its path under the profile. */
  lemma CatalogSaid(windowsUser: string)
    requires Unescaped(windowsUser)
    ensures KeyOf(CatalogLine(windowsUser)) == Some("model_catalog_json")
    ensures ReadValue(TrimSpace(CatalogLine(windowsUser))) == Some("C:/Users/" + windowsUser + "/.codex/models.json")
  {
    PathIsUnescaped(windowsUser);
    PlainRead("model_catalog_json", 19, CatalogPath(windowsUser));
  }

  lemma PathIsUnescaped(windowsUser: string)
    requires Unescaped(windowsUser)
    ensures CatalogPath(windowsUser) != [] && Unescaped(CatalogPath(windowsUser))
  {
    UnescapedConcat("C:/Users/", windowsUser);
    UnescapedConcat("C:/Users/" + windowsUser, "/.codex/models.json");
  }

  lemma UnescapedConcat(a: string, b: string)
    requires Unescaped(a) && Unescaped(b)
    ensures Unescaped(a + b)
  {}

  /** The provider at the root is the one the table below it defines. */
  lemma ProviderSaid()
    ensures KeyOf(ProviderLine()) == Some("model_provider") && ReadValue(TrimSpace(ProviderLine())) == Some("gateway")
  {
    PlainRead("model_provider", 19, "gateway");
  }

  lemma TableNamed()
    ensures Shape("[" + MANAGED_TABLE + "]") == Some("model_providers." + "gateway")
  {
    HeaderRendered();
    assert MANAGED_TABLE == "model_providers." + "gateway";
  }

  lemma SearchSaid()
    ensures KeyOf(SearchLine()) == Some("web_search") && ReadValue(TrimSpace(SearchLine())) == Some("live")
  {
    PlainRead("web_search", 19, "live");
  }

  lemma WireSaid()
    ensures KeyOf(WireLine()) == Some("wire_api") && ReadValue(TrimSpace(WireLine())) == Some("responses")
  {
    PlainRead("wire_api", 9, "responses");
  }

  lemma TimeoutSaid()
    ensures TimeoutLine() == "stream_idle_timeout_ms = 7200000"
  {
    assert |"stream_idle_timeout_ms"| == 22;
    assert seq(1, _ => ' ') == " ";
  }

  /** Search is live, the answers come from the responses API, and the provider named at
      the root is the table below. */
  lemma FixedSaid()
    ensures ReadValue(TrimSpace(SearchLine())) == Some("live") && ReadValue(TrimSpace(WireLine())) == Some("responses")
    ensures TimeoutLine() == "stream_idle_timeout_ms = 7200000"
    ensures ReadValue(TrimSpace(ProviderLine())).Some? && Shape("[" + MANAGED_TABLE + "]").Some?
    ensures Shape("[" + MANAGED_TABLE + "]").value == "model_providers." + ReadValue(TrimSpace(ProviderLine())).value
  {
    ProviderSaid();
    TableNamed();
    SearchSaid();
    WireSaid();
    TimeoutSaid();
  }

  lemma ElevenLines(
    a: Line, b: Line, c: Line, d: Line, e: Line, h: Line, m: Line, n: Line, o: Line, p: Line)
    ensures Fragment([a, b, c, d, e], [], h, [m, n, o, p]).AllLines() == [a, b, c, d, e, "", h, m, n, o, p]
  {}

  /** The fragment, line by line. */
  lemma RenderedLines(baseURL: string, windowsUser: string, allowed: seq<string>, token: string)
    ensures Rendered(baseURL, windowsUser, allowed, token).AllLines() == [
      ModelLine(allowed), ProviderLine(), CatalogLine(windowsUser), SearchLine(), TimeoutLine(), "",
      "[" + MANAGED_TABLE + "]", NameLine(), UrlLine(baseURL), WireLine(), TokenLine(token)]
  {
    ElevenLines(ModelLine(allowed), ProviderLine(), CatalogLine(windowsUser), SearchLine(), TimeoutLine(),
      "[" + MANAGED_TABLE + "]", NameLine(), UrlLine(baseURL), WireLine(), TokenLine(token));
  }
}
