/** Exact sums of a month's cloud bills (go/internal/adminweb/cloudbilling.go). */
module CloudBilling {
  import opened Text
  import opened Decimal

  const WHOLE_DIGITS: nat := 50
  const PLACES: nat := 100

  // ---- amounts ----

  /** An exact decimal with at most `places` digits after the point, as a whole
      number of its last place. */
  type Amount = int

  /** `[+-]?[0-9]+(\.[0-9]+)?`, within the limits, or None. */
  function ParseBody(body: string, places: nat): Option<nat> {
    var dot := IndexFrom(body, '.', 0);
    var whole, fraction := body[..dot], if dot < |body| then body[dot + 1..] else [];
    if whole == [] || !AllDigits(whole) || !AllDigits(fraction) || (dot < |body| && fraction == []) then None
    else if |whole| > WHOLE_DIGITS || |fraction| > places then None
    else Some(Value(whole) * Pow10(places) + Value(fraction) * Pow10(places - |fraction|))
  }

  function Signed(negative: bool, m: int): Amount {
    if negative then -m else m
  }

  function ParseDecimal(s: string, places: nat): Option<Amount> {
    var body := if s != [] && (s[0] == '+' || s[0] == '-') then s[1..] else s;
    var n := ParseBody(body, places);
    if n.None? then None else Some(Signed(s[0] == '-', n.value))
  }

  function TrimRightChar(s: string, c: char): string {
    if s != [] && s[|s| - 1] == c then TrimRightChar(s[..|s| - 1], c) else s
  }

  /** Exactly `places` digits. */
  function Padded(f: nat, places: nat): string {
    Zeros(if |Digits(f)| <= places then places - |Digits(f)| else 0) + Digits(f)
  }

  function Magnitude(n: Amount): nat {
    if n < 0 then -n else n
  }

  function Whole(m: nat, unit: nat): nat
    requires unit > 0
  {
    m / unit
  }

  function Rest(m: nat, unit: nat): (f: nat)
    requires unit > 0
    ensures f < unit && Whole(m, unit) * unit + f == m
  {
    m % unit
  }

  /** big.Rat.FloatString. */
  function FloatString(n: Amount, places: nat): string {
    (if n < 0 then "-" else "")
    + (Digits(Whole(Magnitude(n), Pow10(places))) + ("." + Padded(Rest(Magnitude(n), Pow10(places)), places)))
  }

  /** cloudBillingAmount. */
  function Printed(n: Amount, places: nat): string {
    TrimRightChar(TrimRightChar(FloatString(n, places), '0'), '.')
  }

  lemma {:induction false} TrimRightParts(s: string, c: char) returns (k: nat)
    ensures k <= |s| && TrimRightChar(s, c) == s[..|s| - k]
    ensures forall i :: |s| - k <= i < |s| ==> s[i] == c
    ensures k < |s| ==> s[|s| - k - 1] != c
  {
    if s != [] && s[|s| - 1] == c {
      k := TrimRightParts(s[..|s| - 1], c);
      assert s[..|s| - 1][..|s| - 1 - k] == s[..|s| - (k + 1)];
      k := k + 1;
    } else {
      k := 0;
      assert s[..|s|] == s;
    }
  }

  lemma {:induction false} TrimRightEnd(a: string, c: char, k: nat)
    requires a == [] || a[|a| - 1] != c
    ensures TrimRightChar(a + seq(k, _ => c), c) == a
  {
    var s := a + seq(k, _ => c);
    if k == 0 {
      assert s == a;
    } else {
      assert s[..|s| - 1] == a + seq(k - 1, _ => c);
      TrimRightEnd(a, c, k - 1);
    }
  }

  lemma {:induction false} ZerosAre(k: nat)
    ensures Zeros(k) == seq(k, _ => '0')
  {
    if k > 0 {
      ZerosAre(k - 1);
    }
  }

  lemma PaddedValue(f: nat, places: nat)
    requires places > 0 && f < Pow10(places)
    ensures |Padded(f, places)| == places && AllDigits(Padded(f, places)) && Value(Padded(f, places)) == f
  {
    var d := Digits(f);
    DigitsLength(f, places);
    ZerosAre(places - |d|);
    ZerosBefore(places - |d|, d);
    ValueOfDigits(f);
  }

  /** A padded fraction is its own trimmed digits and zeros. */
  lemma FractionParts(f: nat, places: nat) returns (g: string, k: nat)
    requires places > 0 && f < Pow10(places)
    ensures Padded(f, places) == g + seq(k, _ => '0') && |g| + k == places
    ensures AllDigits(g) && (g != [] ==> g[|g| - 1] != '0')
    ensures Value(g) * Pow10(k) == f
  {
    PaddedValue(f, places);
    g, k := DigitParts(Padded(f, places));
  }

  lemma DigitParts(p: string) returns (g: string, k: nat)
    requires AllDigits(p)
    ensures p == g + seq(k, _ => '0') && |g| + k == |p|
    ensures AllDigits(g) && (g != [] ==> g[|g| - 1] != '0')
    ensures Value(g) * Pow10(k) == Value(p)
  {
    k := TrimRightParts(p, '0');
    g := p[..|p| - k];
    assert p == g + seq(k, _ => '0');
    ZerosAre(k);
    ZerosAfter(g, k);
  }

  /** The two trims take the zeros off the end, and the point if nothing is left. */
  lemma TrimmedAmount(head: string, g: string, k: nat)
    requires head != [] && IsDigit(head[|head| - 1])
    requires AllDigits(g) && (g != [] ==> g[|g| - 1] != '0')
    ensures TrimRightChar(TrimRightChar(head + ("." + (g + seq(k, _ => '0'))), '0'), '.')
      == if g == [] then head else head + ("." + g)
  {
    var a := head + ("." + g);
    assert a[|a| - 1] != '0';
    assert head + ("." + (g + seq(k, _ => '0'))) == a + seq(k, _ => '0');
    TrimRightEnd(a, '0', k);
    if g == [] {
      assert a == head + seq(1, _ => '.');
      TrimRightEnd(head, '.', 1);
    } else {
      assert a[|a| - 1] == g[|g| - 1];
    }
  }

  lemma ParseParts(w: string, g: string, places: nat)
    requires w != [] && AllDigits(w) && AllDigits(g) && |g| <= places
    ensures ParseBody(if g == [] then w else w + ("." + g), places)
      == if |w| > WHOLE_DIGITS then None else Some(Value(w) * Pow10(places) + Value(g) * Pow10(places - |g|))
  {
    var body := if g == [] then w else w + ("." + g);
    PointAt(w, g);
    assert body[..|w|] == w;
    assert g != [] ==> body[|w| + 1..] == g;
  }

  lemma PointAt(w: string, g: string)
    requires AllDigits(w)
    ensures IndexFrom(if g == [] then w else w + ("." + g), '.', 0) == |w|
  {
    var body := if g == [] then w else w + ("." + g);
    IndexMeaning(body, '.', 0);
    var k := IndexFrom(body, '.', 0);
    assert forall i :: 0 <= i < |w| ==> body[i] == w[i] && IsDigit(w[i]);
    assert g != [] ==> body[|w|] == '.';
    assert k >= |w|;
  }

  /** What is printed, digit by digit. */
  lemma PrintedParts(n: Amount, places: nat) returns (w: string, g: string)
    requires places > 0
    ensures w == Digits(Whole(Magnitude(n), Pow10(places)))
    ensures Printed(n, places) == (if n < 0 then "-" else "") + (if g == [] then w else w + ("." + g))
    ensures AllDigits(g) && |g| <= places && Value(g) * Pow10(places - |g|) == Rest(Magnitude(n), Pow10(places))
  {
    var sign := if n < 0 then "-" else "";
    w := Digits(Whole(Magnitude(n), Pow10(places)));
    var k;
    g, k := FractionParts(Rest(Magnitude(n), Pow10(places)), places);
    TrimmedPrint(sign, w, g, k);
  }

  lemma TrimmedPrint(sign: string, w: string, g: string, k: nat)
    requires w != [] && AllDigits(w) && AllDigits(g) && (g != [] ==> g[|g| - 1] != '0')
    ensures TrimRightChar(TrimRightChar(sign + (w + ("." + (g + seq(k, _ => '0')))), '0'), '.')
      == sign + (if g == [] then w else w + ("." + g))
  {
    var head := sign + w;
    assert head[|head| - 1] == w[|w| - 1];
    TrimmedAmount(head, g, k);
    assert sign + (w + ("." + (g + seq(k, _ => '0')))) == head + ("." + (g + seq(k, _ => '0')));
    assert head + ("." + g) == sign + (w + ("." + g));
  }

  predicate Within(n: Amount, limit: int) {
    -limit < n < limit
  }

  /** A printed amount is read back as exactly that amount, as long as it has no
      more digits before the point than an input may have. */
  lemma PrintedReadsBack(n: Amount, places: nat)
    requires places > 0
    ensures ParseDecimal(Printed(n, places), places) == if Within(n, Pow10(WHOLE_DIGITS + places)) then Some(n)
      else None
  {
    var w, g := PrintedParts(n, places);
    BodyReadsBack(Magnitude(n), w, g, places);
    ReadBack(if n < 0 then "-" else "", if g == [] then w else w + ("." + g), places);
  }

  lemma BodyReadsBack(m: nat, w: string, g: string, places: nat)
    requires w == Digits(Whole(m, Pow10(places)))
    requires AllDigits(g) && |g| <= places && Value(g) * Pow10(places - |g|) == Rest(m, Pow10(places))
    ensures ParseBody(if g == [] then w else w + ("." + g), places)
      == if m < Pow10(WHOLE_DIGITS + places) then Some(m) else None
  {
    ParseParts(w, g, places);
    ValueOfDigits(Whole(m, Pow10(places)));
    assert Rest(m, Pow10(places)) + Whole(m, Pow10(places)) * Pow10(places) == m;
    WholeFits(m, places);
  }

  lemma WholeFits(m: nat, places: nat)
    ensures |Digits(Whole(m, Pow10(places)))| <= WHOLE_DIGITS <==> m < Pow10(WHOLE_DIGITS + places)
  {
    DigitsLength(Whole(m, Pow10(places)), WHOLE_DIGITS);
    Pow10Sum(WHOLE_DIGITS, places);
    WholePart(m, Pow10(places), Pow10(WHOLE_DIGITS));
  }

  /** Reading a sign and a body that starts with a digit. */
  lemma ReadBack(sign: string, body: string, places: nat)
    requires sign in {"", "+", "-"} && body != [] && IsDigit(body[0])
    ensures var n := ParseBody(body, places);
      ParseDecimal(sign + body, places) == if n.None? then None else Some(Signed(sign == "-", n.value))
  {
    if sign == "" {
      assert sign + body == body;
    } else {
      assert (sign + body)[0] == sign[0] && (sign + body)[1..] == body;
    }
  }

  lemma WholePart(m: nat, unit: nat, limit: nat)
    requires unit > 0
    ensures Whole(m, unit) < limit <==> m < limit * unit
  {
    var q := Whole(m, unit);
    assert q * unit + Rest(m, unit) == m;
    if q < limit {
      TimesUnit(q + 1, limit, unit);
    } else {
      TimesUnit(limit, q, unit);
    }
  }

  lemma TimesUnit(a: nat, b: nat, unit: nat)
    requires a <= b
    ensures a * unit <= b * unit
  {}

  // ---- which texts are amounts ----

  /** A sign or none, digits, and perhaps a point with digits after it, within the limits. */
  predicate IsAmount(s: string, sign: string, w: string, g: string, places: nat) {
    && sign in {"", "+", "-"} && s == sign + (if g == [] then w else w + ("." + g))
    && w != [] && AllDigits(w) && AllDigits(g) && |w| <= WHOLE_DIGITS && |g| <= places
  }

  /** Such a text is read as its exact value. */
  lemma AmountRead(s: string, sign: string, w: string, g: string, places: nat)
    requires IsAmount(s, sign, w, g, places)
    ensures ParseDecimal(s, places)
      == Some(Signed(sign == "-", Value(w) * Pow10(places) + Value(g) * Pow10(places - |g|)))
  {
    var body := if g == [] then w else w + ("." + g);
    ParseParts(w, g, places);
    assert IsDigit(w[0]) && body[0] == w[0];
    ReadBack(sign, body, places);
  }

  lemma BodyIsAmount(body: string, places: nat) returns (w: string, g: string)
    requires ParseBody(body, places).Some?
    ensures IsAmount(body, "", w, g, places)
  {
    var dot := IndexFrom(body, '.', 0);
    IndexMeaning(body, '.', 0);
    w, g := body[..dot], if dot < |body| then body[dot + 1..] else [];
    CutAtDot(body, dot);
    assert "" + body == body;
  }

  lemma CutAtDot(body: string, dot: nat)
    requires dot <= |body| && (dot < |body| ==> body[dot] == '.' && body[dot + 1..] != [])
    ensures var g := if dot < |body| then body[dot + 1..] else [];
      body == if g == [] then body[..dot] else body[..dot] + ("." + g)
  {
    if dot < |body| {
      assert body == body[..dot] + ([body[dot]] + body[dot + 1..]);
    } else {
      assert body[..dot] == body;
    }
  }

  lemma WithSign(body: string, w: string, g: string, places: nat, sign: string)
    requires IsAmount(body, "", w, g, places) && sign in {"", "+", "-"}
    ensures IsAmount(sign + body, sign, w, g, places)
  {
    assert "" + (if g == [] then w else w + ("." + g)) == body;
  }

  /** And nothing else is read at all. */
  lemma AmountOnly(s: string, places: nat) returns (sign: string, w: string, g: string)
    requires ParseDecimal(s, places).Some?
    ensures IsAmount(s, sign, w, g, places)
  {
    if s != [] && (s[0] == '+' || s[0] == '-') {
      w, g := BodyIsAmount(s[1..], places);
      sign := if s[0] == '+' then "+" else "-";
      WithSign(s[1..], w, g, places, sign);
      assert s == sign + s[1..];
    } else {
      w, g := BodyIsAmount(s, places);
      sign := "";
    }
  }

  // ---- groups ----

  datatype Key = Key(provider: string, scope: string, currency: string, basis: string, disposition: string)

  datatype Row = Row(key: Key, cost: Amount)

  datatype Aggregate = Aggregate(group: Key, rows: nat, amount: Amount)

  type Groups = map<string, Aggregate>

  const NUL: char := '\0'

  function Id(k: Key): string {
    k.provider + ([NUL] + (k.scope + ([NUL] + (k.currency + ([NUL] + (k.basis + ([NUL] + k.disposition)))))))
  }

  predicate Free(s: string) {
    NUL !in s
  }

  predicate FreeOfNul(k: Key) {
    Free(k.provider) && Free(k.scope) && Free(k.currency) && Free(k.basis) && Free(k.disposition)
  }

  lemma FirstField(a: string, rest: string, a': string, rest': string)
    requires Free(a) && Free(a') && a + ([NUL] + rest) == a' + ([NUL] + rest')
    ensures a == a' && rest == rest'
  {
    var s, s' := a + ([NUL] + rest), a' + ([NUL] + rest');
    assert s[|a|] == NUL && s'[|a'|] == NUL;
    assert forall i :: 0 <= i < |a| ==> s[i] == a[i] && a[i] in a;
    assert forall i :: 0 <= i < |a'| ==> s'[i] == a'[i] && a'[i] in a';
    assert |a| == |a'|;
    assert s[..|a|] == a && s'[..|a|] == a';
    assert s[|a| + 1..] == rest && s'[|a| + 1..] == rest';
  }

  /** Without NUL in the fields, groups are told apart. */
  lemma IdInjective(k: Key, l: Key)
    requires FreeOfNul(k) && FreeOfNul(l) && Id(k) == Id(l)
    ensures k == l
  {
    var k4, l4 := k.basis + ([NUL] + k.disposition), l.basis + ([NUL] + l.disposition);
    var k3, l3 := k.currency + ([NUL] + k4), l.currency + ([NUL] + l4);
    var k2, l2 := k.scope + ([NUL] + k3), l.scope + ([NUL] + l3);
    FirstField(k.provider, k2, l.provider, l2);
    FirstField(k.scope, k3, l.scope, l3);
    FirstField(k.currency, k4, l.currency, l4);
    FirstField(k.basis, k.disposition, l.basis, l.disposition);
  }

  /** With NUL they are not: two different groups are summed as one. */
  lemma IdCollides(k: Key, x: string)
    ensures var a, b := k.(scope := k.scope + ([NUL] + x)), k.(currency := x + ([NUL] + k.currency));
      a != b && Id(a) == Id(b)
  {
    var a, b := k.(scope := k.scope + ([NUL] + x)), k.(currency := x + ([NUL] + k.currency));
    var tail := [NUL] + (k.basis + ([NUL] + k.disposition));
    assert |a.scope| > |b.scope|;
    assert (k.scope + ([NUL] + x)) + ([NUL] + (k.currency + tail))
      == k.scope + ([NUL] + ((x + ([NUL] + k.currency)) + tail));
  }

  /** The group a row counts in: with its scope, or over all scopes. */
  function GroupOf(r: Row, scoped: bool): Key {
    if scoped then r.key else r.key.(scope := "")
  }

  function Added(groups: Groups, key: Key, cost: Amount): Groups {
    var before := if Id(key) in groups then groups[Id(key)] else Aggregate(key, 0, 0);
    groups[Id(key) := before.(rows := before.rows + 1, amount := before.amount + cost)]
  }

  function Sum(rows: seq<Row>, key: Key, scoped: bool): Amount {
    if rows == [] then 0
    else Sum(rows[..|rows| - 1], key, scoped) + if GroupOf(rows[|rows| - 1], scoped) == key
      then rows[|rows| - 1].cost else 0
  }

  function Count(rows: seq<Row>, key: Key, scoped: bool): nat {
    if rows == [] then 0
    else Count(rows[..|rows| - 1], key, scoped) + if GroupOf(rows[|rows| - 1], scoped) == key then 1 else 0
  }

  /** The first group with this id, the one an aggregate is named by. */
  function Named(rows: seq<Row>, id: string, scoped: bool): Option<Key> {
    if rows == [] then None
    else
      var before, last := Named(rows[..|rows| - 1], id, scoped), GroupOf(rows[|rows| - 1], scoped);
      if before.None? && Id(last) == id then Some(last) else before
  }

  function SumOf(rows: seq<Row>, id: string, scoped: bool): Amount {
    if rows == [] then 0
    else SumOf(rows[..|rows| - 1], id, scoped) + if Id(GroupOf(rows[|rows| - 1], scoped)) == id
      then rows[|rows| - 1].cost else 0
  }

  function CountOf(rows: seq<Row>, id: string, scoped: bool): nat {
    if rows == [] then 0
    else CountOf(rows[..|rows| - 1], id, scoped) + if Id(GroupOf(rows[|rows| - 1], scoped)) == id then 1 else 0
  }

  /** The aggregate under an id is the count and the exact sum of its rows. */
  predicate Holds(groups: Groups, rows: seq<Row>, id: string, scoped: bool) {
    var name := Named(rows, id, scoped);
    && (id in groups <==> name.Some?)
    && (id in groups ==> groups[id] == Aggregate(name.value, CountOf(rows, id, scoped), SumOf(rows, id, scoped)))
  }

  ghost predicate Tallied(groups: Groups, rows: seq<Row>, scoped: bool) {
    forall id :: Holds(groups, rows, id, scoped)
  }

  lemma {:induction false} NotNamed(rows: seq<Row>, id: string, scoped: bool)
    requires Named(rows, id, scoped).None?
    ensures CountOf(rows, id, scoped) == 0 && SumOf(rows, id, scoped) == 0
  {
    if rows != [] {
      NotNamed(rows[..|rows| - 1], id, scoped);
    }
  }

  lemma AddedHolds(groups: Groups, rows: seq<Row>, r: Row, scoped: bool, id: string)
    requires Holds(groups, rows, id, scoped)
    ensures Holds(Added(groups, GroupOf(r, scoped), r.cost), rows + [r], id, scoped)
  {
    assert (rows + [r])[..|rows|] == rows;
    if Named(rows, id, scoped).None? {
      NotNamed(rows, id, scoped);
    }
  }

  lemma AddedTallied(groups: Groups, rows: seq<Row>, r: Row, scoped: bool)
    requires Tallied(groups, rows, scoped)
    ensures Tallied(Added(groups, GroupOf(r, scoped), r.cost), rows + [r], scoped)
  {
    forall id
      ensures Holds(Added(groups, GroupOf(r, scoped), r.cost), rows + [r], id, scoped)
    {
      assert Holds(groups, rows, id, scoped);
      AddedHolds(groups, rows, r, scoped, id);
    }
  }

  // ---- groups told apart ----

  /** No row of another group has the id of this one. */
  predicate Apart(rows: seq<Row>, key: Key, scoped: bool) {
    forall r :: r in rows && Id(GroupOf(r, scoped)) == Id(key) ==> GroupOf(r, scoped) == key
  }

  lemma {:induction false} CountedMore(rows: seq<Row>, key: Key, scoped: bool)
    ensures Count(rows, key, scoped) <= CountOf(rows, Id(key), scoped)
  {
    if rows != [] {
      CountedMore(rows[..|rows| - 1], key, scoped);
    }
  }

  /** What is shown for a group is its own count, and then its own sum, exactly when
      no row of another group has its id. */
  lemma {:induction false} GroupExactly(rows: seq<Row>, key: Key, scoped: bool)
    ensures CountOf(rows, Id(key), scoped) == Count(rows, key, scoped) <==> Apart(rows, key, scoped)
    ensures Apart(rows, key, scoped) ==> SumOf(rows, Id(key), scoped) == Sum(rows, key, scoped)
  {
    if rows != [] {
      var init, r := rows[..|rows| - 1], rows[|rows| - 1];
      GroupExactly(init, key, scoped);
      CountedMore(init, key, scoped);
      assert rows == init + [r];
    }
  }

  lemma FreeIsApart(rows: seq<Row>, key: Key, scoped: bool)
    requires FreeOfNul(key) && forall r :: r in rows ==> FreeOfNul(r.key)
    ensures Apart(rows, key, scoped)
  {
    forall r | r in rows && Id(GroupOf(r, scoped)) == Id(key)
      ensures GroupOf(r, scoped) == key
    {
      IdInjective(GroupOf(r, scoped), key);
    }
  }

  method Add(groups: Groups, key: Key, amount: Amount) returns (more: Groups)
    ensures more == Added(groups, key, amount)
  {
    var id := Id(key);
    more := groups;
    if id !in more {
      more := more[id := Aggregate(key, 0, 0)];
    }
    var entry := more[id];
    entry := entry.(rows := entry.rows + 1);
    entry := entry.(amount := entry.amount + amount);
    more := more[id := entry];
  }

  /** The row loop: every row counts over all scopes and in its own. */
  method SumRows(rows: seq<Row>) returns (all: Groups, scoped: Groups)
    ensures Tallied(all, rows, false) && Tallied(scoped, rows, true)
  {
    all, scoped := map[], map[];
    assert rows[..0] == [];
    for i := 0 to |rows|
      invariant Tallied(all, rows[..i], false) && Tallied(scoped, rows[..i], true)
    {
      var r := rows[i];
      AddedTallied(all, rows[..i], r, false);
      AddedTallied(scoped, rows[..i], r, true);
      assert rows[..i + 1] == rows[..i] + [r];
      all := Add(all, GroupOf(r, false), r.cost);
      scoped := Add(scoped, GroupOf(r, true), r.cost);
    }
    assert rows[..|rows|] == rows;
  }

  // ---- scopes add up ----

  function OverScopes(rows: seq<Row>, key: Key, scopes: seq<string>): Amount {
    if scopes == [] then 0
    else OverScopes(rows, key, scopes[..|scopes| - 1]) + Sum(rows, key.(scope := scopes[|scopes| - 1]), true)
  }

  predicate Distinct(scopes: seq<string>) {
    forall i, j :: 0 <= i < j < |scopes| ==> scopes[i] != scopes[j]
  }

  lemma {:induction false} NoRows(key: Key, scopes: seq<string>)
    ensures OverScopes([], key, scopes) == 0
  {
    if scopes != [] {
      NoRows(key, scopes[..|scopes| - 1]);
    }
  }

  /** A row adds its cost once over the scopes, when its own is among them. */
  lemma {:induction false} OneMoreRow(rows: seq<Row>, r: Row, key: Key, scopes: seq<string>)
    requires Distinct(scopes)
    ensures OverScopes(rows + [r], key, scopes)
      == OverScopes(rows, key, scopes) + if r.key.scope in scopes && r.key == key.(scope := r.key.scope)
        then r.cost else 0
  {
    if scopes != [] {
      var init, s := scopes[..|scopes| - 1], scopes[|scopes| - 1];
      OneMoreRow(rows, r, key, init);
      assert (rows + [r])[..|rows|] == rows;
      assert r.key.scope in scopes <==> r.key.scope in init || r.key.scope == s;
      assert r.key.scope == s ==> r.key.scope !in init;
    }
  }

  /** The total of a provider, currency, basis and disposition is the sum of its
      scopes' totals. */
  lemma {:induction false} ScopesAddUp(rows: seq<Row>, key: Key, scopes: seq<string>)
    requires Distinct(scopes) && key.scope == "" && forall r :: r in rows ==> r.key.scope in scopes
    ensures OverScopes(rows, key, scopes) == Sum(rows, key, false)
  {
    if rows == [] {
      NoRows(key, scopes);
    } else {
      var init, r := rows[..|rows| - 1], rows[|rows| - 1];
      assert rows == init + [r] && r in rows;
      assert forall q :: q in init ==> q in rows;
      ScopesAddUp(init, key, scopes);
      OneMoreRow(init, r, key, scopes);
      assert GroupOf(r, false) == key <==> r.key == key.(scope := r.key.scope);
    }
  }

  /** In particular for rows and groups without NUL. */
  lemma FreeAmountIsExact(groups: Groups, rows: seq<Row>, scoped: bool, key: Key)
    requires Tallied(groups, rows, scoped) && Id(key) in groups
    requires FreeOfNul(key) && forall r :: r in rows ==> FreeOfNul(r.key)
    requires Within(Sum(rows, key, scoped), Pow10(WHOLE_DIGITS + PLACES))
    ensures groups[Id(key)].rows == Count(rows, key, scoped)
    ensures ParseDecimal(Printed(groups[Id(key)].amount, PLACES), PLACES) == Some(Sum(rows, key, scoped))
  {
    FreeIsApart(rows, key, scoped);
    GroupExactly(rows, key, scoped);
    assert Holds(groups, rows, Id(key), scoped);
    ShownAmountIsExact(groups, rows, scoped, key);
  }

  /** The shown amount of a group told apart reads back as the exact sum of its rows. */
  lemma ShownAmountIsExact(groups: Groups, rows: seq<Row>, scoped: bool, key: Key)
    requires Tallied(groups, rows, scoped) && Apart(rows, key, scoped) && Id(key) in groups
    requires Within(Sum(rows, key, scoped), Pow10(WHOLE_DIGITS + PLACES))
    ensures ParseDecimal(Printed(groups[Id(key)].amount, PLACES), PLACES) == Some(Sum(rows, key, scoped))
  {
    assert Holds(groups, rows, Id(key), scoped);
    GroupExactly(rows, key, scoped);
    PrintedReadsBack(groups[Id(key)].amount, PLACES);
  }
}
