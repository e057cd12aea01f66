/**
 * Non-negative decimal amounts, at most ten digits before and ten after the point. Parsing
 * answers the canonical text; equality of amounts is equality of that text.
 */
module DecimalAmount {
  import opened Wrappers

  const MAX_DIGITS: nat := 10

  datatype DecimalError = InvalidAmount

  /** What is left of an accepted text once it is trimmed and split. */
  datatype Numeral = Numeral(whole: string, fraction: Option<string>)

  // ---------- reading ----------

  /** The characters with the Unicode property White_Space. */
  predicate IsSpace(c: char) {
    || '\t' <= c <= '\r' || c == ' ' || c == '\U{85}' || c == '\U{A0}' || c == '\U{1680}'
    || '\U{2000}' <= c <= '\U{200A}' || c == '\U{2028}' || c == '\U{2029}' || c == '\U{202F}'
    || c == '\U{205F}' || c == '\U{3000}'
  }

  predicate IsDigit(c: char) {
    '0' <= c <= '9'
  }

  predicate AllDigits(s: string) {
    forall c :: c in s ==> IsDigit(c)
  }

  predicate AllSpaces(s: string) {
    forall c :: c in s ==> IsSpace(c)
  }

  function TrimStart(s: string): string {
    if s != [] && IsSpace(s[0]) then TrimStart(s[1..]) else s
  }

  function TrimEnd(s: string): string {
    if s != [] && IsSpace(s[|s| - 1]) then TrimEnd(s[..|s| - 1]) else s
  }

  function Trim(s: string): string {
    TrimEnd(TrimStart(s))
  }

  /** The parts between points; one more than there are points. */
  function Split(s: string): (parts: seq<string>)
    ensures |parts| >= 1
  {
    if s == [] then [[]]
    else
      var rest := Split(s[1..]);
      if s[0] == '.' then [[]] + rest else [[s[0]] + rest[0]] + rest[1..]
  }

  predicate ValidDigits(s: string) {
    1 <= |s| <= MAX_DIGITS && AllDigits(s)
  }

  function Read(s: string): Option<Numeral> {
    var parts := Split(Trim(s));
    var fraction := if |parts| > 1 then Some(parts[1]) else None;
    if ValidDigits(parts[0]) && |parts| <= 2 && (fraction.Some? ==> ValidDigits(fraction.value))
    then Some(Numeral(parts[0], fraction))
    else None
  }

  // ---------- the canonical text ----------

  function StripLeading(s: string): string {
    if s != [] && s[0] == '0' then StripLeading(s[1..]) else s
  }

  function StripTrailing(s: string): string {
    if s != [] && s[|s| - 1] == '0' then StripTrailing(s[..|s| - 1]) else s
  }

  function WholeText(whole: string): string {
    if StripLeading(whole) == [] then "0" else StripLeading(whole)
  }

  function Digits(fraction: Option<string>): string {
    if fraction.Some? then fraction.value else []
  }

  function Canonical(n: Numeral): string {
    var fraction := StripTrailing(Digits(n.fraction));
    if fraction == [] then WholeText(n.whole) else WholeText(n.whole) + "." + fraction
  }

  function Parse(s: string): Result<string, DecimalError> {
    match Read(s)
    case Some(n) => Success(Canonical(n))
    case None => Failure(InvalidAmount)
  }

  // ---------- what an amount is worth ----------

  function Pow10(k: nat): (p: nat)
    ensures p > 0
  {
    if k == 0 then 1 else 10 * Pow10(k - 1)
  }

  function Number(s: string): nat
    requires AllDigits(s)
  {
    assert s != [] ==> IsDigit(s[|s| - 1]);
    if s == [] then 0 else 10 * Number(s[..|s| - 1]) + (s[|s| - 1] as int - '0' as int)
  }

  predicate Valid(n: Numeral) {
    ValidDigits(n.whole) && (n.fraction.Some? ==> ValidDigits(n.fraction.value))
  }

  function Share(fraction: string): nat
    requires AllDigits(fraction) && |fraction| <= MAX_DIGITS
  {
    Number(fraction) * Pow10(MAX_DIGITS - |fraction|)
  }

  /** In units of ten to the minus ten. */
  function Value(n: Numeral): nat
    requires Valid(n)
  {
    Number(n.whole) * Pow10(MAX_DIGITS) + Share(Digits(n.fraction))
  }

  // ---------- which texts are accepted ----------

  function Text(n: Numeral): string {
    n.whole + (if n.fraction.Some? then "." + n.fraction.value else [])
  }

  lemma {:induction false} SplitPlain(s: string)
    requires '.' !in s
    ensures Split(s) == [s]
  {
    if s != [] {
      assert '.' !in s[1..];
      SplitPlain(s[1..]);
      assert [s[0]] + s[1..] == s;
    }
  }

  lemma {:induction false} SplitAtPoint(a: string, b: string)
    requires '.' !in a
    ensures Split(a + "." + b) == [a] + Split(b)
  {
    var s := a + "." + b;
    if a == [] {
      assert s[1..] == b;
    } else {
      assert '.' !in a[1..];
      SplitAtPoint(a[1..], b);
      assert s[1..] == a[1..] + "." + b;
      assert [a[0]] + a[1..] == a;
    }
  }

  /** Splitting loses nothing: the parts joined by points are the text, and no part holds a point. */
  lemma {:induction false} SplitRebuilds(s: string)
    ensures '.' !in Split(s)[0]
    ensures |Split(s)| == 1 ==> s == Split(s)[0]
    ensures |Split(s)| == 2 ==> '.' !in Split(s)[1] && s == Split(s)[0] + "." + Split(s)[1]
  {
    if s != [] {
      SplitRebuilds(s[1..]);
      assert s == [s[0]] + s[1..];
    }
  }

  lemma {:induction false} TrimStartCuts(s: string)
    ensures exists a :: AllSpaces(a) && s == a + TrimStart(s)
  {
    if s != [] && IsSpace(s[0]) {
      TrimStartCuts(s[1..]);
      var a :| AllSpaces(a) && s[1..] == a + TrimStart(s[1..]);
      assert s == [s[0]] + a + TrimStart(s);
      assert AllSpaces([s[0]] + a);
    } else {
      assert s == [] + TrimStart(s) && AllSpaces([]);
    }
  }

  lemma {:induction false} TrimEndCuts(s: string)
    ensures exists b :: AllSpaces(b) && s == TrimEnd(s) + b
  {
    if s != [] && IsSpace(s[|s| - 1]) {
      var front := s[..|s| - 1];
      TrimEndCuts(front);
      var b :| AllSpaces(b) && front == TrimEnd(front) + b;
      assert s == TrimEnd(s) + (b + [s[|s| - 1]]);
      assert AllSpaces(b + [s[|s| - 1]]);
    } else {
      assert s == TrimEnd(s) + [] && AllSpaces([]);
    }
  }

  lemma {:induction false} TrimStartDrops(a: string, m: string)
    requires AllSpaces(a) && m != [] && !IsSpace(m[0])
    ensures TrimStart(a + m) == m
  {
    if a == [] {
      assert a + m == m;
    } else {
      TrimStartDrops(a[1..], m);
      assert (a + m)[1..] == a[1..] + m;
    }
  }

  lemma {:induction false} TrimEndDrops(m: string, b: string)
    requires AllSpaces(b) && m != [] && !IsSpace(m[|m| - 1])
    ensures TrimEnd(m + b) == m
  {
    if b == [] {
      assert m + b == m;
    } else {
      TrimEndDrops(m, b[..|b| - 1]);
      assert (m + b)[..|m + b| - 1] == m + b[..|b| - 1];
    }
  }

  lemma TrimDrops(a: string, m: string, b: string)
    requires AllSpaces(a) && AllSpaces(b)
    requires m != [] && !IsSpace(m[0]) && !IsSpace(m[|m| - 1])
    ensures Trim(a + m + b) == m
  {
    assert a + m + b == a + (m + b);
    TrimStartDrops(a, m + b);
    TrimEndDrops(m, b);
  }

  lemma TextEnds(n: Numeral)
    requires Valid(n)
    ensures Text(n) != [] && !IsSpace(Text(n)[0]) && !IsSpace(Text(n)[|Text(n)| - 1])
  {
    assert IsDigit(Text(n)[0]);
    var last := if n.fraction.Some? then n.fraction.value else n.whole;
    assert Text(n)[|Text(n)| - 1] == last[|last| - 1];
    assert IsDigit(last[|last| - 1]);
  }

  lemma ReadText(n: Numeral)
    requires Valid(n)
    ensures Split(Text(n)) == if n.fraction.Some? then [n.whole, n.fraction.value] else [n.whole]
  {
    assert '.' !in n.whole;
    if n.fraction.Some? {
      assert '.' !in n.fraction.value;
      assert Text(n) == n.whole + "." + n.fraction.value;
      SplitAtPoint(n.whole, n.fraction.value);
      SplitPlain(n.fraction.value);
    } else {
      assert Text(n) == n.whole;
      SplitPlain(n.whole);
    }
  }

  /** A padded numeral reads back as itself, whatever surrounds it. */
  lemma AcceptsPadded(a: string, n: Numeral, b: string)
    requires AllSpaces(a) && AllSpaces(b) && Valid(n)
    ensures Read(a + Text(n) + b) == Some(n)
  {
    TextEnds(n);
    TrimDrops(a, Text(n), b);
    ReadText(n);
  }

  ghost predicate Padded(s: string, n: Numeral) {
    exists a, b :: AllSpaces(a) && AllSpaces(b) && s == a + Text(n) + b
  }

  lemma TrimmedIsText(s: string, n: Numeral)
    requires Read(s) == Some(n)
    ensures Valid(n) && Trim(s) == Text(n)
  {
    SplitRebuilds(Trim(s));
  }

  lemma TrimCuts(s: string)
    ensures exists a, b :: AllSpaces(a) && AllSpaces(b) && s == a + Trim(s) + b
  {
    TrimStartCuts(s);
    var a :| AllSpaces(a) && s == a + TrimStart(s);
    TrimEndCuts(TrimStart(s));
    var b :| AllSpaces(b) && TrimStart(s) == Trim(s) + b;
    assert s == a + Trim(s) + b;
  }

  /** Accepted are exactly the padded numerals, and each is read as the numeral it shows. */
  lemma ReadsExactlyNumerals(s: string, n: Numeral)
    ensures Read(s) == Some(n) <==> Valid(n) && Padded(s, n)
  {
    if Valid(n) && Padded(s, n) {
      var a, b :| AllSpaces(a) && AllSpaces(b) && s == a + Text(n) + b;
      AcceptsPadded(a, n, b);
    }
    if Read(s) == Some(n) {
      TrimmedIsText(s, n);
      TrimCuts(s);
    }
  }

  // ---------- zeros at either end ----------

  lemma {:induction false} StripLeadingKeeps(s: string)
    requires AllDigits(s)
    ensures AllDigits(StripLeading(s)) && |StripLeading(s)| <= |s|
    ensures Number(StripLeading(s)) == Number(s)
    ensures StripLeading(StripLeading(s)) == StripLeading(s)
  {
    if s != [] && s[0] == '0' {
      assert AllDigits(s[1..]);
      StripLeadingKeeps(s[1..]);
      ZeroInFront(s[1..]);
      assert s == "0" + s[1..];
    }
  }

  lemma {:induction false} ZeroInFront(s: string)
    requires AllDigits(s)
    ensures AllDigits("0" + s) && Number("0" + s) == Number(s)
  {
    var z := "0" + s;
    if s == [] {
      assert z[..|z| - 1] == [];
    } else {
      assert z[..|z| - 1] == "0" + s[..|s| - 1];
      ZeroInFront(s[..|s| - 1]);
    }
  }

  /** The worth of a fraction does not change when trailing zeros go. */
  lemma {:induction false} StripTrailingKeeps(s: string)
    requires AllDigits(s) && |s| <= MAX_DIGITS
    ensures AllDigits(StripTrailing(s)) && |StripTrailing(s)| <= |s|
    ensures Share(StripTrailing(s)) == Share(s)
    ensures StripTrailing(StripTrailing(s)) == StripTrailing(s)
  {
    if s != [] && s[|s| - 1] == '0' {
      var front := s[..|s| - 1];
      assert AllDigits(front);
      StripTrailingKeeps(front);
      assert Number(s) == 10 * Number(front);
      Regroup(Number(front), Pow10(MAX_DIGITS - |s|));
    }
  }

  lemma Regroup(a: nat, p: nat)
    ensures a * (10 * p) == 10 * a * p
  {
  }

  /** The numeral a canonical text shows. */
  function Reduced(n: Numeral): Numeral {
    var fraction := StripTrailing(Digits(n.fraction));
    Numeral(WholeText(n.whole), if fraction == [] then None else Some(fraction))
  }

  lemma WholeTextKeeps(w: string)
    requires ValidDigits(w)
    ensures ValidDigits(WholeText(w)) && Number(WholeText(w)) == Number(w)
    ensures WholeText(WholeText(w)) == WholeText(w)
  {
    StripLeadingKeeps(w);
    assert Number("0") == 0;
    assert StripLeading("0") == [];
  }

  lemma ReducedKeeps(n: Numeral)
    requires Valid(n)
    ensures Valid(Reduced(n)) && Value(Reduced(n)) == Value(n)
    ensures Text(Reduced(n)) == Canonical(n)
    ensures Reduced(Reduced(n)) == Reduced(n)
  {
    WholeTextKeeps(n.whole);
    StripTrailingKeeps(Digits(n.fraction));
    assert Digits(Reduced(n).fraction) == StripTrailing(Digits(n.fraction));
  }

  /**
   * Every accepted text maps to a text that is read back as the same value and maps to itself.
   */
  lemma CanonicalIsAFixedPoint(s: string)
    requires Parse(s).Success?
    ensures Parse(Parse(s).value) == Parse(s)
    ensures Read(s).Some? && Valid(Read(s).value)
    ensures Read(Parse(s).value).Some? && Valid(Read(Parse(s).value).value)
    ensures Value(Read(Parse(s).value).value) == Value(Read(s).value)
  {
    var n := Read(s).value;
    ReadsExactlyNumerals(s, n);
    ReducedKeeps(n);
    var c := Canonical(n);
    assert AllSpaces([]) && c == [] + Text(Reduced(n)) + [];
    AcceptsPadded([], Reduced(n), []);
    ReducedKeeps(Reduced(n));
  }

  // ---------- equal texts, equal values ----------

  function Zeros(k: nat): string {
    if k == 0 then [] else "0" + Zeros(k - 1)
  }

  lemma {:induction false} LeadingZeros(k: nat, s: string)
    requires AllDigits(s)
    ensures |Zeros(k) + s| == k + |s| && AllDigits(Zeros(k) + s)
    ensures Number(Zeros(k) + s) == Number(s)
    ensures StripLeading(Zeros(k) + s) == StripLeading(s)
  {
    if k == 0 {
      assert Zeros(k) + s == s;
    } else {
      LeadingZeros(k - 1, s);
      var t := Zeros(k - 1) + s;
      assert Zeros(k) + s == "0" + t;
      ZeroInFront(t);
      assert ("0" + t)[1..] == t;
    }
  }

  lemma {:induction false} TrailingZeros(s: string, k: nat)
    requires AllDigits(s)
    decreases k
    ensures |s + Zeros(k)| == |s| + k && AllDigits(s + Zeros(k))
    ensures Number(s + Zeros(k)) == Number(s) * Pow10(k)
    ensures StripTrailing(s + Zeros(k)) == StripTrailing(s)
  {
    if k == 0 {
      assert s + Zeros(k) == s;
    } else {
      var z := s + "0";
      assert z[..|z| - 1] == s;
      assert s + Zeros(k) == z + Zeros(k - 1);
      assert Number(z) == 10 * Number(s);
      TrailingZeros(z, k - 1);
      Regroup(Number(s), Pow10(k - 1));
    }
  }

  lemma {:induction false} SameLengthSameDigits(s: string, t: string)
    requires AllDigits(s) && AllDigits(t) && |s| == |t| && Number(s) == Number(t)
    ensures s == t
  {
    if s != [] {
      var i, j := s[..|s| - 1], t[..|t| - 1];
      assert IsDigit(s[|s| - 1]) && IsDigit(t[|t| - 1]);
      SameLengthSameDigits(i, j);
      assert s == i + [s[|s| - 1]] && t == j + [t[|t| - 1]];
    }
  }

  lemma SameWhole(s: string, t: string)
    requires ValidDigits(s) && ValidDigits(t) && Number(s) == Number(t)
    ensures StripLeading(s) == StripLeading(t)
  {
    LeadingZeros(MAX_DIGITS - |s|, s);
    LeadingZeros(MAX_DIGITS - |t|, t);
    SameLengthSameDigits(Zeros(MAX_DIGITS - |s|) + s, Zeros(MAX_DIGITS - |t|) + t);
  }

  lemma PaddedFraction(s: string)
    requires AllDigits(s) && |s| <= MAX_DIGITS
    ensures var all := s + Zeros(MAX_DIGITS - |s|);
            |all| == MAX_DIGITS && AllDigits(all) && Number(all) == Share(s) && StripTrailing(all) == StripTrailing(s)
  {
    TrailingZeros(s, MAX_DIGITS - |s|);
  }

  lemma SameFraction(s: string, t: string)
    requires AllDigits(s) && AllDigits(t) && |s| <= MAX_DIGITS && |t| <= MAX_DIGITS
    requires Share(s) == Share(t)
    ensures StripTrailing(s) == StripTrailing(t)
  {
    PaddedFraction(s);
    PaddedFraction(t);
    SameLengthSameDigits(s + Zeros(MAX_DIGITS - |s|), t + Zeros(MAX_DIGITS - |t|));
  }

  lemma {:induction false} NumberIsBelow(s: string)
    requires AllDigits(s)
    ensures Number(s) < Pow10(|s|)
  {
    if s != [] {
      assert IsDigit(s[|s| - 1]);
      NumberIsBelow(s[..|s| - 1]);
    }
  }

  lemma FractionIsBelowOne(s: string)
    requires AllDigits(s) && |s| <= MAX_DIGITS
    ensures Share(s) < Pow10(MAX_DIGITS)
  {
    PaddedFraction(s);
    NumberIsBelow(s + Zeros(MAX_DIGITS - |s|));
  }

  lemma QuotientIsUnique(a: nat, x: nat, b: nat, y: nat, p: nat)
    requires y < p && a * p + x == b * p + y
    ensures a <= b
  {
    var d: int := a - b;
    assert d * p == a * p - b * p;
    assert d * p < p;
    NoMultipleBelow(d, p);
  }

  lemma NoMultipleBelow(d: int, p: nat)
    requires d * p < p
    ensures d <= 0
  {
  }

  lemma Digitwise(a: nat, x: nat, b: nat, y: nat, p: nat)
    requires x < p && y < p && a * p + x == b * p + y
    ensures a == b && x == y
  {
    QuotientIsUnique(a, x, b, y, p);
    QuotientIsUnique(b, y, a, x, p);
  }

  lemma SameValueSameText(m: Numeral, n: Numeral)
    requires Valid(m) && Valid(n) && Value(m) == Value(n)
    ensures Canonical(m) == Canonical(n)
  {
    var f, g := Digits(m.fraction), Digits(n.fraction);
    FractionIsBelowOne(f);
    FractionIsBelowOne(g);
    Digitwise(Number(m.whole), Share(f), Number(n.whole), Share(g), Pow10(MAX_DIGITS));
    SameWhole(m.whole, n.whole);
    SameFraction(f, g);
  }

  /** Accepted texts become the same text exactly when they are worth the same. */
  lemma EqualExactlyWhenWorthTheSame(s: string, t: string)
    requires Parse(s).Success? && Parse(t).Success?
    ensures Read(s).Some? && Valid(Read(s).value) && Read(t).Some? && Valid(Read(t).value)
    ensures Parse(s) == Parse(t) <==> Value(Read(s).value) == Value(Read(t).value)
  {
    CanonicalIsAFixedPoint(s);
    CanonicalIsAFixedPoint(t);
    if Value(Read(s).value) == Value(Read(t).value) {
      SameValueSameText(Read(s).value, Read(t).value);
    }
  }

  /** Among all texts of the same worth, none is shorter than the canonical one. */
  lemma CanonicalIsShortest(s: string, t: string)
    requires Parse(s).Success? && Parse(t) == Parse(s)
    ensures |Parse(s).value| <= |t|
  {
    var n := Read(t).value;
    ReadsExactlyNumerals(t, n);
    var a, b :| AllSpaces(a) && AllSpaces(b) && t == a + Text(n) + b;
    StripLeadingKeeps(n.whole);
    StripTrailingKeeps(Digits(n.fraction));
  }

  // ---------- the range ----------

  function Padding(v: nat, k: nat): (s: string)
    ensures |s| == k && AllDigits(s)
  {
    if k == 0 then [] else Padding(v / 10, k - 1) + ['0' + (v % 10) as char]
  }

  lemma {:induction false} PaddingShows(v: nat, k: nat)
    requires v < Pow10(k)
    ensures Number(Padding(v, k)) == v
  {
    if k > 0 {
      PaddingShows(v / 10, k - 1);
      var s := Padding(v, k);
      assert s[..k - 1] == Padding(v / 10, k - 1);
    }
  }

  lemma TenDigits()
    ensures Pow10(MAX_DIGITS) == 10_000_000_000
  {
    assert Pow10(4) == 10 * Pow10(3) && Pow10(3) == 10 * Pow10(2) && Pow10(2) == 10 * Pow10(1) && Pow10(1) == 10;
    assert Pow10(7) == 10 * Pow10(6) && Pow10(6) == 10 * Pow10(5) && Pow10(5) == 10 * Pow10(4);
    assert Pow10(10) == 10 * Pow10(9) && Pow10(9) == 10 * Pow10(8) && Pow10(8) == 10 * Pow10(7);
  }

  /** The 25 characters with the property White_Space. */
  const WHITE_SPACE: string :=
    "\t\n\U{B}\U{C}\r \U{85}\U{A0}\U{1680}\U{2000}\U{2001}\U{2002}\U{2003}\U{2004}\U{2005}\U{2006}\U{2007}\U{2008}"
    + "\U{2009}\U{200A}\U{2028}\U{2029}\U{202F}\U{205F}\U{3000}"

  lemma SpacesAreListed(c: char)
    ensures |WHITE_SPACE| == 25
    ensures IsSpace(c) <==> c in WHITE_SPACE
  {
  }

  /** Amounts are exactly the multiples of ten to the minus ten below ten to the ten. */
  lemma RangeIsNumeric(v: nat)
    ensures v < 10_000_000_000 * 10_000_000_000 <==>
              exists n :: Valid(n) && Value(n) == v && Read(Text(n)) == Some(n)
  {
    TenDigits();
    var p := Pow10(MAX_DIGITS);
    if v < p * p {
      QuotientIsBelow(v, p);
      var n := Numeral(Padding(v / p, MAX_DIGITS), Some(Padding(v % p, MAX_DIGITS)));
      PaddingShows(v / p, MAX_DIGITS);
      PaddingShows(v % p, MAX_DIGITS);
      assert Pow10(0) == 1;
      assert [] + Text(n) + [] == Text(n) && AllSpaces([]);
      AcceptsPadded([], n, []);
      assert Valid(n) && Value(n) == v;
    }
    if n :| Valid(n) && Value(n) == v && Read(Text(n)) == Some(n) {
      ValueIsBelow(n);
    }
  }

  lemma QuotientIsBelow(v: nat, p: nat)
    requires p > 0 && v < p * p
    ensures v / p < p && v == (v / p) * p + v % p
  {
  }

  lemma ValueIsBelow(n: Numeral)
    requires Valid(n)
    ensures Value(n) < Pow10(MAX_DIGITS) * Pow10(MAX_DIGITS)
  {
    var p := Pow10(MAX_DIGITS);
    LeadingZeros(MAX_DIGITS - |n.whole|, n.whole);
    NumberIsBelow(Zeros(MAX_DIGITS - |n.whole|) + n.whole);
    FractionIsBelowOne(Digits(n.fraction));
    assert (Number(n.whole) + 1) * p <= p * p;
  }
}
