// Duration text: Go's rendering of durations, the trimming the settings page wants, and
// parsing it back.

module Durations {
  import opened Models

  const MAX_DURATION: int := 0x7fff_ffff_ffff_ffff
  const MIN_DURATION: int := -0x8000_0000_0000_0000

  predicate IsDigit(c: char) { '0' <= c <= '9' }

  predicate AllDigits(s: string) { forall c :: c in s ==> IsDigit(c) }

  function DigitChar(d: nat): char
    requires d < 10
  {
    ['0', '1', '2', '3', '4', '5', '6', '7', '8', '9'][d]
  }

  function Digits(n: nat): string {
    if n < 10 then [DigitChar(n)] else Digits(n / 10) + [DigitChar(n % 10)]
  }

  function Value(s: string): int {
    if s == "" then 0 else 10 * Value(s[..|s| - 1]) + (s[|s| - 1] as int - '0' as int)
  }

  function Pow10(k: nat): (p: nat)
    ensures p >= 1
  {
    if k == 0 then 1 else 10 * Pow10(k - 1)
  }

  // ---------- rendering ----------

  /** The last n decimal digits of v, leading zeros included. */
  function Pad(v: nat, n: nat): string {
    if n == 0 then "" else Pad(v / 10, n - 1) + [DigitChar(v % 10)]
  }

  /** fmtFrac: the same without the trailing zeros. */
  function FracDigits(v: nat, n: nat): string {
    if n == 0 then "" else if v % 10 == 0 then FracDigits(v / 10, n - 1) else Pad(v, n)
  }

  function Dot(frac: string): string { if frac == "" then "" else "." + frac }

  datatype Amounted = Amounted(n: nat, frac: string, u: string)

  function Group(g: Amounted): string { Digits(g.n) + Dot(g.frac) + g.u }

  const MICRO: string := "\U{00B5}s"

  /** The one group of a duration under a second. */
  function SubSecond(u: nat): Amounted {
    if u == 0 then Amounted(0, "", "s")
    else if u < 1000 then Amounted(u, "", "ns")
    else if u < 1_000_000 then Amounted(u / 1000, FracDigits(u, 3), MICRO)
    else Amounted(u / 1_000_000, FracDigits(u, 6), "ms")
  }

  function Hours(h: nat): Amounted { Amounted(h, "", "h") }

  function Minutes(m: nat): Amounted { Amounted(m, "", "m") }

  function Seconds(s: nat, frac: string): Amounted { Amounted(s, frac, "s") }

  function Untrimmed(h: nat, m: nat, s: nat, frac: string): string {
    (if h > 0 then Group(Hours(h)) else "") + (if h > 0 || m > 0 then Group(Minutes(m)) else "") + Group(Seconds(s, frac))
  }

  function GoMagnitude(u: nat): string {
    if u < SECOND then Group(SubSecond(u))
    else
      var seconds := u / SECOND;
      var minutes := seconds / 60;
      Untrimmed(minutes / 60, minutes % 60, seconds % 60, FracDigits(u, 9))
  }

  function Signed(neg: bool, text: string): string { if neg then "-" + text else text }

  /** time.Duration.String. */
  function GoString(d: int): string { Signed(d < 0, GoMagnitude(if d < 0 then -d else d)) }

  predicate HasSuffix(s: string, suffix: string) {
    |s| >= |suffix| && s[|s| - |suffix|..] == suffix
  }

  function TrimZero(s: string, suffix: string): string
    requires |suffix| >= 2
  {
    if HasSuffix(s, suffix) then s[..|s| - 2] else s
  }

  function Trim(s: string): string { TrimZero(TrimZero(s, "m0s"), "h0m") }

  function FormatDuration(d: int): string { Trim(GoString(d)) }

  // ---------- parsing ----------

  function LeadingDigits(s: string): (n: nat)
    ensures n <= |s|
  {
    if s == "" || !IsDigit(s[0]) then 0 else 1 + LeadingDigits(s[1..])
  }

  function LeadingUnit(s: string): (n: nat)
    ensures n <= |s|
  {
    if s == "" || s[0] == '.' || IsDigit(s[0]) then 0 else 1 + LeadingUnit(s[1..])
  }

  function Scaled(whole: int, frac: string, nanos: int): int {
    whole * nanos + Value(frac) * nanos / Pow10(|frac|)
  }

  /** A number of a unit, if it is one, in nanoseconds; a part of a nanosecond is dropped. */
  function Amount(whole: int, frac: string, unit: string): Option<int> {
    if unit == "h" then Some(Scaled(whole, frac, 3_600_000_000_000))
    else if unit == "m" then Some(Scaled(whole, frac, 60_000_000_000))
    else if unit == "s" then Some(Scaled(whole, frac, 1_000_000_000))
    else if unit == "ms" then Some(Scaled(whole, frac, 1_000_000))
    else if unit == "us" || unit == MICRO || unit == "\U{03BC}s" then Some(Scaled(whole, frac, 1000))
    else if unit == "ns" then Some(Scaled(whole, frac, 1))
    else None
  }

  function Plus(a: Option<int>, b: Option<int>): Option<int> {
    if a.Some? && b.Some? then Some(a.value + b.value) else None
  }

  datatype Lexed = Lexed(whole: string, frac: string, unit: string, rest: string)

  function LexUnit(whole: string, frac: string, s: string): (g: Lexed)
    ensures |g.unit| + |g.rest| == |s|
  {
    Lexed(whole, frac, s[..LeadingUnit(s)], s[LeadingUnit(s)..])
  }

  /** A number, perhaps with a point and a fraction, then everything up to the next one. */
  function Lex(s: string): (g: Lexed)
    ensures |g.unit| + |g.rest| <= |s|
  {
    var n := LeadingDigits(s);
    var after := s[n..];
    if after != "" && after[0] == '.' then
      var k := LeadingDigits(after[1..]);
      LexUnit(s[..n], after[1..][..k], after[1..][k..])
    else LexUnit(s[..n], "", after)
  }

  /** The groups of time.ParseDuration, over and over. */
  function ParseGroups(s: string): Option<int>
    decreases |s|
  {
    if s == "" then Some(0)
    else
      var g := Lex(s);
      if (g.whole == "" && g.frac == "") || g.unit == "" then None
      else Plus(Amount(Value(g.whole), g.frac, g.unit), ParseGroups(g.rest))
  }

  function Bounded(neg: bool, r: Option<int>): Option<int> {
    if r.None? then None
    else
      var d := if neg then -r.value else r.value;
      if MIN_DURATION <= d <= MAX_DURATION then Some(d) else None
  }

  /** time.ParseDuration: an optional sign, a lone zero or groups, in 64 bits. */
  function ParseDuration(s: string): Option<int> {
    var neg := s != "" && s[0] == '-';
    var body := if s != "" && (s[0] == '-' || s[0] == '+') then s[1..] else s;
    if body == "0" then Some(0)
    else if body == "" then None
    else
      Bounded(neg, ParseGroups(body))
  }

  /** The JSON value a duration field holds, if any. */
  datatype Json = Absent | Null | Text(s: string) | Integer(n: int) | Otherwise

  /** parseDurationJSON: an absent, null or empty value is zero. */
  function ParseDurationJson(j: Json): Option<int> {
    match j
    case Absent => Some(0)
    case Null => Some(0)
    case Text(s) => if s == "" then Some(0) else ParseDuration(s)
    case Integer(n) => if MIN_DURATION <= n <= MAX_DURATION then Some(n) else None
    case Otherwise => None
  }

  // ---------- digits ----------

  lemma {:induction false} DigitsAreDigits(n: nat)
    ensures |Digits(n)| >= 1 && AllDigits(Digits(n))
    ensures Value(Digits(n)) == n
    ensures Digits(n) == "0" <==> n == 0
  {
    if n < 10 {
      assert Digits(n)[..0] == "";
    } else {
      DigitsAreDigits(n / 10);
      var s := Digits(n);
      assert s[..|s| - 1] == Digits(n / 10);
    }
  }

  lemma {:induction false} PadIsDigits(v: nat, n: nat)
    ensures |Pad(v, n)| == n && AllDigits(Pad(v, n))
  {
    if n == 0 {
    } else {
      PadIsDigits(v / 10, n - 1);
    }
  }

  lemma ValueSnoc(s: string, d: nat)
    requires d < 10
    ensures Value(s + [DigitChar(d)]) == 10 * Value(s) + d
  {
    assert (s + [DigitChar(d)])[..|s|] == s;
  }

  lemma {:induction false} PadValue(v: nat, n: nat)
    ensures Value(Pad(v, n)) == v % Pow10(n)
  {
    if n == 0 {
    } else {
      PadValue(v / 10, n - 1);
      ValueSnoc(Pad(v / 10, n - 1), v % 10);
      LastDigit(v, Pow10(n - 1));
    }
  }

  lemma LastDigit(v: nat, p: nat)
    requires p >= 1
    ensures 10 * (v / 10 % p) + v % 10 == v % (10 * p)
  {
    var q, r := v / 10 / p, v / 10 % p;
    DivMod(v / 10, p);
    Tenfold(v, q, p, r);
    DivUnique(v, 10 * p, q, 10 * r + v % 10);
  }

  lemma Tenfold(v: nat, q: int, p: int, r: int)
    requires v / 10 == q * p + r
    ensures v == q * (10 * p) + (10 * r + v % 10)
  {
    assert q * (10 * p) == 10 * (q * p);
  }

  lemma NotNegative(k: int, p: int)
    requires k >= 0 && p >= 0
    ensures k * p >= 0
  {
  }

  lemma Gap(q: int, q': int, p: int)
    requires q < q' && p >= 1
    ensures q' * p >= q * p + p
  {
    NotNegative(q' - q - 1, p);
    assert q' * p == q * p + p + (q' - q - 1) * p;
  }

  lemma SameQuotient(q: int, r: int, q': int, r': int, p: int)
    requires q * p + r == q' * p + r' && 0 <= r < p && 0 <= r' < p
    ensures q == q' && r == r'
  {
    if q < q' { Gap(q, q', p); } else if q' < q { Gap(q', q, p); }
  }

  lemma DivMod(x: int, p: int)
    requires p >= 1
    ensures x == x / p * p + x % p && 0 <= x % p < p
  {
  }

  lemma DivUnique(x: int, p: int, q: int, r: int)
    requires 0 <= r < p && x == q * p + r
    ensures x / p == q && x % p == r
  {
    DivMod(x, p);
    SameQuotient(x / p, x % p, q, r, p);
  }

  lemma {:induction false} FracIsDigits(v: nat, n: nat)
    ensures AllDigits(FracDigits(v, n)) && |FracDigits(v, n)| <= n
  {
    if n == 0 {
    } else if v % 10 == 0 {
      FracIsDigits(v / 10, n - 1);
    } else {
      PadIsDigits(v, n);
    }
  }

  lemma {:induction false} FracValue(v: nat, n: nat, k: nat)
    requires n == |FracDigits(v, n)| + k
    ensures Value(FracDigits(v, n)) * Pow10(k) == v % Pow10(n)
  {
    if n == 0 {
    } else if v % 10 == 0 {
      var x := Value(FracDigits(v, n));
      FracIsDigits(v / 10, n - 1);
      FracValue(v / 10, n - 1, k - 1);
      LastDigit(v, Pow10(n - 1));
      Tens(x, Pow10(k - 1));
    } else {
      PadIsDigits(v, n);
      PadValue(v, n);
    }
  }

  lemma Tens(x: int, p: int)
    ensures x * (10 * p) == 10 * (x * p)
  {
  }

  lemma {:induction false} Pow10Splits(a: nat, b: nat)
    ensures Pow10(a + b) == Pow10(a) * Pow10(b)
  {
    if a == 0 {
    } else {
      Pow10Splits(a - 1, b);
      assert 10 * (Pow10(a - 1) * Pow10(b)) == 10 * Pow10(a - 1) * Pow10(b);
    }
  }

  /** The fraction that was cut off is exactly what the parser adds back. */
  lemma FracScales(v: nat, n: nat)
    ensures var t := FracDigits(v, n); Value(t) * Pow10(n) / Pow10(|t|) == v % Pow10(n)
  {
    var t := FracDigits(v, n);
    FracIsDigits(v, n);
    FracValue(v, n, n - |t|);
    Pow10Splits(|t|, n - |t|);
    Cancel(Value(t), Pow10(|t|), Pow10(n - |t|));
  }

  lemma Cancel(x: int, p: nat, q: nat)
    requires p >= 1
    ensures x * (p * q) / p == x * q
  {
    assert x * (p * q) == (x * q) * p + 0;
    DivUnique(x * (p * q), p, x * q, 0);
  }

  // ---------- reading groups back ----------

  lemma {:induction false} DigitsThen(ds: string, rest: string)
    requires AllDigits(ds) && (rest != "" ==> !IsDigit(rest[0]))
    ensures LeadingDigits(ds + rest) == |ds|
  {
    if ds == "" {
      assert ds + rest == rest;
    } else {
      assert (ds + rest)[1..] == ds[1..] + rest;
      DigitsThen(ds[1..], rest);
    }
  }

  predicate IsUnit(u: string) { u != "" && forall c :: c in u ==> !IsDigit(c) && c != '.' }

  lemma {:induction false} UnitThen(u: string, rest: string)
    requires (forall c :: c in u ==> !IsDigit(c) && c != '.') && (rest != "" ==> IsDigit(rest[0]))
    ensures LeadingUnit(u + rest) == |u|
  {
    if u == "" {
      assert u + rest == rest;
    } else {
      assert (u + rest)[1..] == u[1..] + rest && u[0] in u;
      UnitThen(u[1..], rest);
    }
  }

  predicate WellFormed(g: Amounted) { AllDigits(g.frac) && IsUnit(g.u) }

  lemma Split(a: string, b: string)
    ensures (a + b)[..|a|] == a && (a + b)[|a|..] == b
  {
  }

  lemma LexUnitText(whole: string, frac: string, u: string, rest: string)
    requires IsUnit(u) && (rest != "" ==> IsDigit(rest[0]))
    ensures LexUnit(whole, frac, u + rest) == Lexed(whole, frac, u, rest)
  {
    UnitThen(u, rest);
    Split(u, rest);
  }

  lemma LexWhole(ds: string, u: string, rest: string)
    requires AllDigits(ds) && IsUnit(u) && (rest != "" ==> IsDigit(rest[0]))
    ensures Lex(ds + (u + rest)) == Lexed(ds, "", u, rest)
  {
    assert (u + rest)[0] == u[0] && u[0] in u;
    DigitsThen(ds, u + rest);
    Split(ds, u + rest);
    LexUnitText(ds, "", u, rest);
  }

  lemma LexFraction(ds: string, t: string, u: string, rest: string)
    requires AllDigits(ds) && AllDigits(t) && IsUnit(u) && (rest != "" ==> IsDigit(rest[0]))
    ensures Lex(ds + ("." + (t + (u + rest)))) == Lexed(ds, t, u, rest)
  {
    var after := "." + (t + (u + rest));
    DigitsThen(ds, after);
    Split(ds, after);
    assert after[1..] == t + (u + rest);
    assert (u + rest)[0] == u[0] && u[0] in u;
    DigitsThen(t, u + rest);
    Split(t, u + rest);
    LexUnitText(ds, t, u, rest);
  }

  lemma GroupText(g: Amounted, rest: string)
    ensures Group(g) + rest ==
      if g.frac == "" then Digits(g.n) + (g.u + rest) else Digits(g.n) + ("." + (g.frac + (g.u + rest)))
  {
  }

  /** One group is read off the front. */
  lemma ParseGroup(g: Amounted, rest: string)
    requires WellFormed(g) && (rest != "" ==> IsDigit(rest[0]))
    ensures ParseGroups(Group(g) + rest) == Plus(Amount(g.n, g.frac, g.u), ParseGroups(rest))
  {
    var ds := Digits(g.n);
    DigitsAreDigits(g.n);
    GroupText(g, rest);
    if g.frac == "" { LexWhole(ds, g.u, rest); } else { LexFraction(ds, g.frac, g.u, rest); }
  }

  function Spell(gs: seq<Amounted>): string {
    if gs == [] then "" else Group(gs[0]) + Spell(gs[1..])
  }

  function Sum(gs: seq<Amounted>): Option<int> {
    if gs == [] then Some(0) else Plus(Amount(gs[0].n, gs[0].frac, gs[0].u), Sum(gs[1..]))
  }

  lemma SpellStartsWithDigit(gs: seq<Amounted>)
    requires forall g :: g in gs ==> WellFormed(g)
    ensures gs == [] ==> Spell(gs) == ""
    ensures gs != [] ==> |Spell(gs)| >= 2 && IsDigit(Spell(gs)[0])
  {
    if gs != [] {
      var ds := Digits(gs[0].n);
      DigitsAreDigits(gs[0].n);
      assert Spell(gs)[0] == ds[0] && ds[0] in ds;
      assert WellFormed(gs[0]);
    }
  }

  /** Whatever groups are spelled one after the other are read back and added up. */
  lemma {:induction false} ParseSpelled(gs: seq<Amounted>)
    requires forall g :: g in gs ==> WellFormed(g)
    ensures ParseGroups(Spell(gs)) == Sum(gs)
  {
    if gs == [] {
    } else {
      ParseSpelled(gs[1..]);
      SpellStartsWithDigit(gs[1..]);
      ParseGroup(gs[0], Spell(gs[1..]));
    }
  }

  // ---------- trimming ----------

  lemma NoTrim(s: string, x: char, z: char)
    requires |s| < 3 || s[|s| - 3] != x || s[|s| - 2] != '0' || s[|s| - 1] != z
    ensures TrimZero(s, [x, '0', z]) == s
  {
    if |s| >= 3 {
      var end := s[|s| - 3..];
      assert end[0] == s[|s| - 3] && end[1] == s[|s| - 2] && end[2] == s[|s| - 1];
    }
  }

  lemma DoesTrim(before: string, x: char, z: char)
    ensures TrimZero(before + [x, '0', z], [x, '0', z]) == before + [x]
  {
    var s := before + [x, '0', z];
    assert s[|s| - 3..] == [x, '0', z];
    assert s[..|s| - 2] == before + [x];
  }

  /** A zero group at the end goes, and only a zero group. */
  lemma TrimGroup(before: string, x: char, n: nat, z: char)
    requires !IsDigit(x)
    ensures TrimZero(before + [x] + (Digits(n) + [z]), [x, '0', z]) ==
      if n == 0 then before + [x] else before + [x] + (Digits(n) + [z])
  {
    var ds, s := Digits(n), before + [x] + (Digits(n) + [z]);
    DigitsAreDigits(n);
    if n == 0 {
      assert s == before + [x, '0', z];
      DoesTrim(before, x, z);
    } else if |ds| == 1 {
      assert s[|s| - 2] == ds[0] && ds == [ds[0]] && "0" == ['0'];
      NoTrim(s, x, z);
    } else {
      assert s[|s| - 3] == ds[|ds| - 2];
      NoTrim(s, x, z);
    }
  }

  /** A lone group stays. */
  lemma TrimLone(n: nat, x: char, z: char)
    requires !IsDigit(x)
    ensures TrimZero(Digits(n) + [z], [x, '0', z]) == Digits(n) + [z]
  {
    var ds, s := Digits(n), Digits(n) + [z];
    DigitsAreDigits(n);
    if |ds| >= 2 { assert s[|s| - 3] == ds[|ds| - 2]; }
    NoTrim(s, x, z);
  }

  /** A fraction keeps the seconds, whatever stands before them. */
  lemma TrimFraction(before: string, s: nat, frac: string)
    requires frac != "" && AllDigits(frac)
    ensures TrimZero(before + Group(Seconds(s, frac)), "m0s") == before + Group(Seconds(s, frac))
  {
    var text := before + Group(Seconds(s, frac));
    if |frac| == 1 {
      assert text[|text| - 3] == '.';
    } else {
      assert text[|text| - 3] == frac[|frac| - 2] && frac[|frac| - 2] in frac;
    }
    NoTrim(text, 'm', 's');
  }

  lemma EndsInSeconds(before: string, s: nat, frac: string)
    ensures TrimZero(before + Group(Seconds(s, frac)), "h0m") == before + Group(Seconds(s, frac))
  {
    var text := before + Group(Seconds(s, frac));
    assert text[|text| - 1] == 's';
    NoTrim(text, 'h', 'm');
  }

  lemma TrimLoneSeconds(s: nat, frac: string)
    requires AllDigits(frac)
    ensures Trim(Group(Seconds(s, frac))) == Group(Seconds(s, frac))
  {
    assert "" + Group(Seconds(s, frac)) == Group(Seconds(s, frac));
    EndsInSeconds("", s, frac);
    if frac == "" {
      assert Group(Seconds(s, frac)) == Digits(s) + ['s'];
      TrimLone(s, 'm', 's');
    } else {
      TrimFraction("", s, frac);
    }
  }

  lemma TrimSubSecond(u: nat)
    requires u < SECOND
    ensures Trim(Group(SubSecond(u))) == Group(SubSecond(u))
  {
    var g, text := SubSecond(u), Group(SubSecond(u));
    if u == 0 {
      TrimLoneSeconds(0, "");
    } else {
      assert text[|text| - 2] == g.u[0] && text[|text| - 1] == g.u[1] == 's';
      NoTrim(text, 'm', 's');
      NoTrim(text, 'h', 'm');
    }
  }

  lemma WholeGroupText(n: nat, u: string)
    ensures Group(Amounted(n, "", u)) == Digits(n) + u
  {
  }

  /** The seconds go when they are zero, and then only the minutes end the text. */
  lemma TrimSeconds(before: string, m: nat, s: nat, frac: string)
    requires AllDigits(frac)
    ensures var text := before + Group(Minutes(m));
      TrimZero(text + Group(Seconds(s, frac)), "m0s") == if s == 0 && frac == "" then text else text + Group(Seconds(s, frac))
  {
    var text := before + Group(Minutes(m));
    WholeGroupText(m, "m");
    assert text == before + Digits(m) + ['m'];
    if frac == "" {
      WholeGroupText(s, "s");
      TrimGroup(before + Digits(m), 'm', s, 's');
    } else {
      TrimFraction(text, s, frac);
    }
  }

  lemma TrimMinutes(h: nat, m: nat)
    requires h > 0 || m > 0
    ensures var front := if h > 0 then Group(Hours(h)) else "";
      TrimZero(front + Group(Minutes(m)), "h0m") == if h > 0 && m == 0 then front else front + Group(Minutes(m))
  {
    WholeGroupText(m, "m");
    WholeGroupText(h, "h");
    if h > 0 {
      assert Group(Hours(h)) == Digits(h) + ['h'];
      TrimGroup(Digits(h), 'h', m, 'm');
    } else {
      assert "" + Group(Minutes(m)) == Digits(m) + ['m'];
      TrimLone(m, 'h', 'm');
    }
  }

  /** The groups formatDuration leaves of a duration of a second or more: no zero group at
      the end, unless it is the only one. */
  function WholeGroups(h: nat, m: nat, s: nat, frac: string): seq<Amounted> {
    if h > 0 then [Hours(h)] + (if m == 0 && s == 0 && frac == "" then [] else MinuteGroups(m, s, frac))
    else if m > 0 then MinuteGroups(m, s, frac)
    else [Seconds(s, frac)]
  }

  function MinuteGroups(m: nat, s: nat, frac: string): seq<Amounted> {
    [Minutes(m)] + if s == 0 && frac == "" then [] else [Seconds(s, frac)]
  }

  function GroupsOf(u: nat): seq<Amounted> {
    if u < SECOND then [SubSecond(u)]
    else
      var seconds := u / SECOND;
      var minutes := seconds / 60;
      WholeGroups(minutes / 60, minutes % 60, seconds % 60, FracDigits(u, 9))
  }

  lemma SpellOne(g: Amounted, rest: seq<Amounted>)
    ensures Spell([g] + rest) == Group(g) + Spell(rest)
    ensures Sum([g] + rest) == Plus(Amount(g.n, g.frac, g.u), Sum(rest))
  {
    assert ([g] + rest)[1..] == rest;
  }

  lemma SpellLone(g: Amounted)
    ensures Spell([g]) == Group(g) && Sum([g]) == Plus(Amount(g.n, g.frac, g.u), Some(0))
  {
    SpellOne(g, []);
    assert [g] + [] == [g];
    assert Group(g) + "" == Group(g);
  }

  lemma SpellMinutes(m: nat, s: nat, frac: string)
    ensures Spell(MinuteGroups(m, s, frac)) ==
      if s == 0 && frac == "" then Group(Minutes(m)) else Group(Minutes(m)) + Group(Seconds(s, frac))
  {
    if s == 0 && frac == "" {
      assert MinuteGroups(m, s, frac) == [Minutes(m)];
      SpellLone(Minutes(m));
    } else {
      SpellOne(Minutes(m), [Seconds(s, frac)]);
      SpellLone(Seconds(s, frac));
    }
  }

  lemma TrimBoth(h: nat, m: nat, s: nat, frac: string)
    requires AllDigits(frac) && (h > 0 || m > 0)
    ensures var front := if h > 0 then Group(Hours(h)) else "";
      Trim(Untrimmed(h, m, s, frac)) ==
        if !(s == 0 && frac == "") then front + Group(Minutes(m)) + Group(Seconds(s, frac))
        else if h > 0 && m == 0 then front
        else front + Group(Minutes(m))
  {
    var front := if h > 0 then Group(Hours(h)) else "";
    TrimSeconds(front, m, s, frac);
    if s == 0 && frac == "" { TrimMinutes(h, m); } else { EndsInSeconds(front + Group(Minutes(m)), s, frac); }
  }

  lemma SpellHours(h: nat, m: nat, s: nat, frac: string)
    requires h > 0
    ensures Spell(WholeGroups(h, m, s, frac)) ==
      if m == 0 && s == 0 && frac == "" then Group(Hours(h)) else Group(Hours(h)) + Spell(MinuteGroups(m, s, frac))
  {
    if m == 0 && s == 0 && frac == "" {
      assert WholeGroups(h, m, s, frac) == [Hours(h)];
      SpellLone(Hours(h));
    } else {
      SpellOne(Hours(h), MinuteGroups(m, s, frac));
    }
  }

  lemma TrimWhole(h: nat, m: nat, s: nat, frac: string)
    requires AllDigits(frac)
    ensures Trim(Untrimmed(h, m, s, frac)) == Spell(WholeGroups(h, m, s, frac))
  {
    SpellMinutes(m, s, frac);
    if h > 0 {
      SpellHours(h, m, s, frac);
      TrimBoth(h, m, s, frac);
      Assoc(Group(Hours(h)), Group(Minutes(m)), Group(Seconds(s, frac)));
    } else if m > 0 {
      TrimBoth(h, m, s, frac);
      assert "" + Group(Minutes(m)) == Group(Minutes(m));
    } else {
      SpellLone(Seconds(s, frac));
      TrimLoneSeconds(s, frac);
      assert "" + "" + Group(Seconds(s, frac)) == Group(Seconds(s, frac));
    }
  }

  lemma Assoc(a: string, b: string, c: string)
    ensures a + b + c == a + (b + c)
  {
  }

  /** formatDuration of a non-negative duration. */
  lemma FormatIsTrimmed(u: nat)
    ensures Trim(GoMagnitude(u)) == Spell(GroupsOf(u))
  {
    if u < SECOND {
      TrimSubSecond(u);
      SpellLone(SubSecond(u));
    } else {
      FracIsDigits(u, 9);
      var minutes := u / SECOND / 60;
      TrimWhole(minutes / 60, minutes % 60, u / SECOND % 60, FracDigits(u, 9));
    }
  }

  // ---------- the round trip ----------

  lemma ScaledWhole(n: nat, nanos: int)
    ensures Scaled(n, "", nanos) == n * nanos
  {
    assert Value("") * nanos == 0;
  }

  lemma ScaledFraction(whole: nat, v: nat, n: nat)
    ensures Scaled(whole, FracDigits(v, n), Pow10(n)) == whole * Pow10(n) + v % Pow10(n)
  {
    FracScales(v, n);
  }

  lemma PowersOfTen()
    ensures Pow10(0) == 1 && Pow10(3) == 1000 && Pow10(6) == 1_000_000 && Pow10(9) == 1_000_000_000
  {
    assert Pow10(1) == 10 && Pow10(2) == 100 && Pow10(4) == 10_000 && Pow10(5) == 100_000;
    assert Pow10(7) == 10_000_000 && Pow10(8) == 100_000_000;
  }

  lemma SubSecondAmount(u: nat)
    requires u < SECOND
    ensures Amount(SubSecond(u).n, SubSecond(u).frac, SubSecond(u).u) == Some(u)
  {
    PowersOfTen();
    if u == 0 { ScaledWhole(0, 1_000_000_000); }
    else if u < 1000 { ScaledWhole(u, 1); }
    else if u < 1_000_000 { ScaledFraction(u / 1000, u, 3); }
    else { ScaledFraction(u / 1_000_000, u, 6); }
  }

  lemma SecondsAmount(s: nat, u: nat)
    ensures Amount(s, FracDigits(u, 9), "s") == Some(s * 1_000_000_000 + u % 1_000_000_000)
  {
    PowersOfTen();
    ScaledFraction(s, u, 9);
  }

  lemma HourAmounts(h: nat, m: nat)
    ensures Amount(h, "", "h") == Some(h * 3_600_000_000_000)
    ensures Amount(m, "", "m") == Some(m * 60_000_000_000)
  {
    ScaledWhole(h, 3_600_000_000_000);
    ScaledWhole(m, 60_000_000_000);
  }

  lemma NoFraction(u: nat)
    requires FracDigits(u, 9) == ""
    ensures u % 1_000_000_000 == 0
  {
    PowersOfTen();
    FracScales(u, 9);
  }

  lemma MinutesSum(m: nat, s: nat, u: nat)
    ensures Sum(MinuteGroups(m, s, FracDigits(u, 9))) == Some(m * 60_000_000_000 + s * 1_000_000_000 + u % 1_000_000_000)
  {
    HourAmounts(0, m);
    if s == 0 && FracDigits(u, 9) == "" {
      NoFraction(u);
      assert MinuteGroups(m, s, FracDigits(u, 9)) == [Minutes(m)];
      SpellLone(Minutes(m));
    } else {
      SecondsAmount(s, u);
      SpellLone(Seconds(s, FracDigits(u, 9)));
      SpellOne(Minutes(m), [Seconds(s, FracDigits(u, 9))]);
    }
  }

  function Total(h: nat, m: nat, s: nat, nanos: nat): int {
    h * 3_600_000_000_000 + m * 60_000_000_000 + s * 1_000_000_000 + nanos
  }

  lemma HoursSum(h: nat, m: nat, s: nat, u: nat)
    requires h > 0
    ensures Sum(WholeGroups(h, m, s, FracDigits(u, 9))) == Some(Total(h, m, s, u % 1_000_000_000))
  {
    HourAmounts(h, m);
    if m == 0 && s == 0 && FracDigits(u, 9) == "" { HoursAlone(h, u); } else { HoursMore(h, m, s, u); }
  }

  lemma HoursAlone(h: nat, u: nat)
    requires h > 0 && FracDigits(u, 9) == ""
    ensures Sum(WholeGroups(h, 0, 0, "")) == Some(Total(h, 0, 0, u % 1_000_000_000))
  {
    HourAmounts(h, 0);
    NoFraction(u);
    assert WholeGroups(h, 0, 0, "") == [Hours(h)];
    SpellLone(Hours(h));
  }

  lemma HoursMore(h: nat, m: nat, s: nat, u: nat)
    requires h > 0 && !(m == 0 && s == 0 && FracDigits(u, 9) == "")
    ensures Sum(WholeGroups(h, m, s, FracDigits(u, 9))) == Some(Total(h, m, s, u % 1_000_000_000))
  {
    HourAmounts(h, m);
    MinutesSum(m, s, u);
    SpellOne(Hours(h), MinuteGroups(m, s, FracDigits(u, 9)));
  }

  lemma WholeSum(h: nat, m: nat, s: nat, u: nat)
    ensures Sum(WholeGroups(h, m, s, FracDigits(u, 9))) == Some(Total(h, m, s, u % 1_000_000_000))
  {
    if h > 0 {
      HoursSum(h, m, s, u);
    } else if m > 0 {
      MinutesSum(m, s, u);
    } else {
      SecondsAmount(s, u);
      SpellLone(Seconds(s, FracDigits(u, 9)));
    }
  }

  lemma WholeSeconds(u: nat)
    ensures var minutes := u / SECOND / 60;
      Total(minutes / 60, minutes % 60, u / SECOND % 60, u % 1_000_000_000) == u
  {
  }

  lemma GroupsSum(u: nat)
    ensures Sum(GroupsOf(u)) == Some(u)
  {
    if u < SECOND {
      SubSecondAmount(u);
      SpellLone(SubSecond(u));
    } else {
      var minutes := u / SECOND / 60;
      WholeSum(minutes / 60, minutes % 60, u / SECOND % 60, u);
      WholeSeconds(u);
    }
  }

  lemma GroupsAreWellFormed(u: nat)
    ensures GroupsOf(u) != [] && forall g :: g in GroupsOf(u) ==> WellFormed(g)
  {
    FracIsDigits(u, 3);
    FracIsDigits(u, 6);
    FracIsDigits(u, 9);
  }

  lemma ParseMagnitude(u: nat)
    ensures ParseGroups(Spell(GroupsOf(u))) == Some(u)
    ensures |Spell(GroupsOf(u))| >= 2 && IsDigit(Spell(GroupsOf(u))[0])
  {
    GroupsAreWellFormed(u);
    SpellStartsWithDigit(GroupsOf(u));
    ParseSpelled(GroupsOf(u));
    GroupsSum(u);
  }

  lemma TrimKeepsSign(text: string, x: char, z: char)
    requires x != '-'
    ensures TrimZero("-" + text, [x, '0', z]) == "-" + TrimZero(text, [x, '0', z])
  {
    var s, pat := "-" + text, [x, '0', z];
    if |text| >= 3 {
      assert s[|s| - 3..] == text[|text| - 3..];
      assert s[..|s| - 2] == "-" + text[..|text| - 2];
    } else if |s| == 3 {
      assert s[0] == '-' && pat[0] == x;
    }
  }

  lemma TrimSigned(neg: bool, text: string)
    ensures Trim(Signed(neg, text)) == Signed(neg, Trim(text))
  {
    if neg {
      TrimKeepsSign(text, 'm', 's');
      TrimKeepsSign(TrimZero(text, "m0s"), 'h', 'm');
    }
  }

  lemma ParsePlain(text: string)
    requires |text| >= 2 && IsDigit(text[0])
    ensures ParseDuration(text) == Bounded(false, ParseGroups(text))
  {
  }

  lemma ParseNegative(text: string)
    requires |text| >= 2
    ensures ParseDuration("-" + text) == Bounded(true, ParseGroups(text))
  {
    assert ("-" + text)[1..] == text;
  }

  lemma ParseSigned(neg: bool, text: string)
    requires |text| >= 2 && IsDigit(text[0])
    ensures ParseDurationJson(Text(Signed(neg, text))) == Bounded(neg, ParseGroups(text))
  {
    if neg { ParseNegative(text); } else { ParsePlain(text); }
  }

  lemma MagnitudeRoundTrips(neg: bool, u: nat, text: string)
    requires text == Spell(GroupsOf(u))
    ensures ParseDurationJson(Text(Signed(neg, text))) == Bounded(neg, Some(u))
  {
    ParseMagnitude(u);
    ParseSigned(neg, text);
  }

  lemma FormatPositive(u: nat)
    ensures FormatDuration(u) == Spell(GroupsOf(u))
  {
    FormatIsTrimmed(u);
  }

  lemma TrimmedSigned(u: nat)
    ensures Trim(Signed(true, GoMagnitude(u))) == Signed(true, Spell(GroupsOf(u)))
  {
    FormatIsTrimmed(u);
    TrimSigned(true, GoMagnitude(u));
  }

  lemma FormatNegative(d: int)
    requires d < 0
    ensures FormatDuration(d) == Trim(Signed(true, GoMagnitude(-d)))
  {
  }

  /** The settings round trip: parsing the text of any duration Go can represent, however
      small, fractional or negative, returns it; so does the plain number form. */
  lemma FormatRoundTrips(d: int)
    requires MIN_DURATION <= d <= MAX_DURATION
    ensures ParseDurationJson(Text(FormatDuration(d))) == Some(d)
    ensures ParseDurationJson(Integer(d)) == Some(d)
  {
    if d < 0 {
      FormatNegative(d);
      TrimmedSigned(-d);
      MagnitudeRoundTrips(true, -d, Spell(GroupsOf(-d)));
    } else {
      FormatPositive(d);
      MagnitudeRoundTrips(false, d, Spell(GroupsOf(d)));
    }
  }

  // ---------- what a user may write ----------

  /** What one of a unit is worth, in nanoseconds; any other spelling is no unit. */
  function Worth(u: string): int {
    if u == "h" then 3600 * 1_000_000_000
    else if u == "m" then 60 * 1_000_000_000
    else if u == "s" then 1_000_000_000
    else if u == "ms" then 1_000_000
    else if u in {"us", "\U{00B5}s", "\U{03BC}s"} then 1000
    else if u == "ns" then 1
    else 0
  }

  lemma AmountIsWorth(n: nat, u: string)
    ensures Amount(n, "", u) == if Worth(u) > 0 then Some(n * Worth(u)) else None
  {
    ScaledWhole(n, Worth(u));
  }

  lemma OneGroup(n: nat, u: string)
    requires IsUnit(u)
    ensures ParseGroups(Digits(n) + u) == Plus(Amount(n, "", u), Some(0))
    ensures |Digits(n) + u| >= 2 && IsDigit((Digits(n) + u)[0])
  {
    var g := Amounted(n, "", u);
    WholeGroupText(n, u);
    SpellLone(g);
    ParseSpelled([g]);
    SpellStartsWithDigit([g]);
    assert [g][1..] == [] && Sum([]) == Some(0);
  }

  /** A number of any unit, with or without a minus, is read as what it says; it is refused if
      and only if the unit is unknown or the duration does not fit 64 bits. */
  lemma ReadsAnyUnit(n: nat, u: string, neg: bool)
    requires IsUnit(u)
    ensures var r, nanos := ParseDurationJson(Text(Signed(neg, Digits(n) + u))), n * Worth(u);
      r == if Worth(u) == 0 then None
           else if neg then (if nanos <= 0x8000_0000_0000_0000 then Some(-nanos) else None)
           else (if nanos < 0x8000_0000_0000_0000 then Some(nanos) else None)
  {
    OneGroup(n, u);
    WorthOfGroup(n, u);
    AmountIsWorth(n, u);
    WorthIsNatural(n, u);
    BoundsOf(neg, n * Worth(u));
    ParseSigned(neg, Digits(n) + u);
  }

  lemma PlusZero(a: Option<int>)
    ensures Plus(a, Some(0)) == a
  {
  }

  lemma WorthIsNatural(n: nat, u: string)
    ensures Worth(u) >= 0 && n * Worth(u) >= 0
  {
    NatProduct(n, Worth(u));
  }

  lemma NatProduct(n: nat, m: int)
    ensures m >= 0 ==> n * m >= 0
  {
  }

  lemma WorthOfGroup(n: nat, u: string)
    requires IsUnit(u)
    ensures ParseGroups(Digits(n) + u) == Amount(n, "", u)
  {
    OneGroup(n, u);
    PlusZero(Amount(n, "", u));
  }

  lemma BoundsOf(neg: bool, nanos: int)
    requires nanos >= 0
    ensures Bounded(neg, Some(nanos)) ==
      if neg then (if nanos <= 0x8000_0000_0000_0000 then Some(-nanos) else None)
      else (if nanos < 0x8000_0000_0000_0000 then Some(nanos) else None)
  {
  }

  /** A plus changes nothing. */
  lemma PlusIsIgnored(text: string)
    requires text != "" && IsDigit(text[0])
    ensures ParseDuration("+" + text) == ParseDuration(text)
  {
    assert ("+" + text)[1..] == text;
  }

  /** A field without a value, or with an empty one, is zero; one that is no text and no number
      that fits 64 bits is refused. */
  lemma ReadsOtherJson(n: int)
    ensures ParseDurationJson(Absent) == Some(0) && ParseDurationJson(Null) == Some(0) && ParseDurationJson(Text("")) == Some(0)
    ensures ParseDurationJson(Otherwise) == None
    ensures ParseDurationJson(Integer(n)) ==
      if -0x8000_0000_0000_0000 <= n < 0x8000_0000_0000_0000 then Some(n) else None
  {
  }

  lemma LexBare(ds: string)
    requires AllDigits(ds) && ds != ""
    ensures Lex(ds) == Lexed(ds, "", "", "")
  {
    DigitsThen(ds, "");
    assert ds + "" == ds && ds[..|ds|] == ds && ds[|ds|..] == "";
  }

  lemma BareIsRefused(ds: string)
    requires AllDigits(ds) && ds != ""
    ensures ParseGroups(ds) == None
  {
    LexBare(ds);
  }

  lemma ParseBody(neg: bool, body: string)
    requires body != "" && body[0] != '-' && body[0] != '+'
    ensures ParseDuration(Signed(neg, body)) == if body == "0" then Some(0) else Bounded(neg, ParseGroups(body))
  {
    if neg { assert ("-" + body)[0] == '-' && ("-" + body)[1..] == body; }
  }

  /** A number needs a unit, unless it is a lone zero. */
  lemma NeedsUnit(n: nat, neg: bool)
    ensures ParseDuration(Signed(neg, Digits(n))) == if n == 0 then Some(0) else None
  {
    var ds := Digits(n);
    DigitsAreDigits(n);
    assert ds[0] in ds;
    BareIsRefused(ds);
    ParseBody(neg, ds);
  }

  /** A fraction needs no number in front of it. */
  lemma ReadsBareFraction(t: string, u: string)
    requires t != "" && AllDigits(t) && IsUnit(u)
    ensures ParseGroups("." + (t + u)) == Amount(0, t, u)
  {
    assert "" + ("." + (t + (u + ""))) == "." + (t + u) && u + "" == u;
    LexFraction("", t, u, "");
    PlusZero(Amount(0, t, u));
  }
}
