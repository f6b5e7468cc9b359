/** Pool difficulty, read from decimal text and turned into an exact share target. */
module Difficulty {
  import opened Base
  import opened Targets

  /** A difficulty digits * 10^exponent, as the decimal text gives it. */
  datatype Decimal = Decimal(digits: nat, exponent: int)

  function Ten(n: nat): (p: nat)
    ensures p > 0
  {
    if n == 0 then 1 else 10 * Ten(n - 1)
  }

  predicate IsDigit(c: char) {
    '0' <= c <= '9'
  }

  predicate AllDigits(s: string) {
    forall i :: 0 <= i < |s| ==> IsDigit(s[i])
  }

  function Digits(s: string): nat
    requires AllDigits(s)
  {
    if s == "" then 0
    else assert IsDigit(s[|s| - 1]); 10 * Digits(s[..|s| - 1]) + (s[|s| - 1] as int - '0' as int)
  }

  predicate Avoids(s: string, stops: set<char>) {
    forall i :: 0 <= i < |s| ==> s[i] !in stops
  }

  /** The first position holding one of the characters, or the length. */
  function FirstOf(s: string, stops: set<char>): (i: nat)
    ensures i <= |s|
  {
    if s == "" || s[0] in stops then 0 else 1 + FirstOf(s[1..], stops)
  }

  function SkipSpace(s: string): string {
    if s != "" && s[0] in " \t\n\U{000b}\U{000c}\r" then SkipSpace(s[1..]) else s
  }

  /** The exponent: leading space and one sign are accepted, anything after the digits is not. */
  function Exponent(s: string): Result<int> {
    var t := SkipSpace(s);
    var negative := t != "" && t[0] == '-';
    var u := if t != "" && t[0] in "+-" then t[1..] else t;
    if u == "" || !AllDigits(u) || Digits(u) > 300 then Failure
    else Success(Signed(negative, Digits(u)))
  }

  function Signed(negative: bool, v: nat): int {
    if negative then -(v as int) else v
  }

  function Parse(text: string): Result<Decimal> {
    if text == "" || |text| > 96 then Failure
    else
      var e := FirstOf(text, {'e', 'E'});
      var exponent :- if e < |text| then Exponent(text[e + 1..]) else Success(0);
      Mantissas(text[..e], exponent)
  }

  function Mantissas(mantissa: string, exponent: int): Result<Decimal> {
    var dot := FirstOf(mantissa, {'.'});
    var fraction := if dot < |mantissa| then mantissa[dot + 1..] else "";
    var digits := mantissa[..dot] + fraction;
    if digits == "" || !AllDigits(digits) || Digits(digits) == 0 then Failure
    else Success(Decimal(Digits(digits), exponent - |fraction|))
  }

  /** The difficulty-one target. */
  const ONE := 65535 * Pow256(26)

  function Times(a: nat, b: nat): (p: nat)
    ensures a > 0 && b > 0 ==> p > 0
  {
    a * b
  }

  function Over(n: nat, d: nat): (q: nat)
    requires d > 0
    ensures d * q <= n < d * (q + 1)
  {
    n / d
  }

  function Numerator(d: Decimal): nat {
    Times(ONE, if d.exponent < 0 then Ten(-d.exponent) else 1)
  }

  function Denominator(d: Decimal): (r: nat)
    ensures d.digits > 0 ==> r > 0
  {
    Times(d.digits, if d.exponent < 0 then 1 else Ten(d.exponent))
  }

  function Quotient(d: Decimal): nat
    requires d.digits > 0
  {
    Over(Numerator(d), Denominator(d))
  }

  function DifficultyTarget(text: string): Result<Hash> {
    var d :- Parse(text);
    Success(BeBytes(Min(Quotient(d), LIMIT - 1), 32))
  }

  lemma Widest()
    ensures seq(32, i => 255 as byte) == BeBytes(LIMIT - 1, 32)
  {
    hide Pow256;
    OnesValue(32);
    var f: Bytes := seq(32, i => 255 as byte);
    BeBytesOfBe(f);
  }

  lemma TenStep(x: nat, n: nat)
    ensures Times(x, Ten(n)) * 10 == Times(x, Ten(n + 1))
    ensures Times(x, Ten(0)) == Times(x, 1) == x
  {
    assert Ten(n + 1) == 10 * Ten(n);
    MulAssoc(x, Ten(n), 10);
  }

  /** Numerator and denominator are scaled by ten, divided, and clamped to 256 bits. */
  method DifficultyTargetOf(text: string) returns (r: Result<Hash>)
    ensures r == DifficultyTarget(text)
  {
    ParsedPositive(text);
    hide Parse, Pow256, Ten, Times;
    var d :- Parse(text);
    var num, den := ONE, d.digits;
    var steps := if d.exponent < 0 then -d.exponent else d.exponent;
    TenStep(ONE, 0);
    TenStep(d.digits, 0);
    for i := 0 to steps
      invariant num == Times(ONE, if d.exponent < 0 then Ten(i) else 1)
      invariant den == Times(d.digits, if d.exponent < 0 then 1 else Ten(i))
    {
      TenStep(ONE, i);
      TenStep(d.digits, i);
      if d.exponent < 0 {
        num := num * 10;
      } else {
        den := den * 10;
      }
    }
    var out := num / den;
    assert out == Quotient(d);
    if out >= LIMIT {
      Widest();
      return Success(seq(32, i => 255));
    }
    return Success(BeBytes(out, 32));
  }

  lemma ParsedPositive(text: string)
    ensures Parse(text).Success? ==> Parse(text).value.digits > 0
  {
  }

  // ---------- Exactness ----------

  function TenTo(k: int): (p: real)
    ensures p > 0.0
  {
    if k >= 0 then Ten(k) as real else 1.0 / Ten(-k) as real
  }

  /** The rational number a decimal denotes. */
  function Value(d: Decimal): real {
    d.digits as real * TenTo(d.exponent)
  }

  lemma RealProduct(x: nat, y: nat)
    ensures (x * y) as real == x as real * y as real
  {
  }

  lemma RealFloor(n: nat, d: nat)
    requires d > 0
    ensures (n as real / d as real).Floor == Over(n, d)
  {
    var q := Over(n, d);
    hide Over;
    RealProduct(d, q);
    RealProduct(d, q + 1);
    Between(n as real, d as real, q as real);
  }

  lemma RealMono(d: real, a: real, b: real)
    requires d > 0.0 && a < b
    ensures d * a < d * b
  {
  }

  lemma RealMonoLe(d: real, a: real, b: real)
    requires d > 0.0 && a <= b
    ensures d * a <= d * b
  {
  }

  lemma Between(n: real, d: real, q: real)
    requires d > 0.0 && d * q <= n < d * (q + 1.0)
    ensures q <= n / d < q + 1.0
  {
    var x := n / d;
    assert d * x == n;
    if x < q {
      RealMono(d, x, q);
    } else if q + 1.0 <= x {
      RealMonoLe(d, q + 1.0, x);
    }
  }

  lemma DivideTwice(n: real, m: real, t: real)
    requires m > 0.0 && t > 0.0
    ensures m * (1.0 / t) > 0.0
    ensures n / (m * (1.0 / t)) == n * t / m
  {
    var u := 1.0 / t;
    assert t * u == 1.0;
    RealMono(m, 0.0, u);
    var v := m * u;
    var x := n * t / m;
    assert x * m == n * t;
    assert x * v == n by {
      RealAssoc(x, m, u);
      RealAssoc(n, t, u);
    }
    QuotientOf(n, v, x);
  }

  lemma RealAssoc(x: real, y: real, z: real)
    ensures (x * y) * z == x * (y * z)
  {
  }

  lemma QuotientOf(n: real, v: real, x: real)
    requires v > 0.0 && x * v == n
    ensures n / v == x
  {
    var y := n / v;
    assert v * y == n;
    if x < y {
      RealMono(v, x, y);
    } else if y < x {
      RealMono(v, y, x);
    }
  }

  lemma ValueSmall(n: nat, m: nat, t: nat)
    requires m > 0 && t > 0
    ensures m as real * (1.0 / t as real) > 0.0
    ensures n as real / (m as real * (1.0 / t as real)) == Times(n, t) as real / Times(m, 1) as real
  {
    DivideTwice(n as real, m as real, t as real);
    RealProduct(n, t);
  }

  lemma ValueLarge(n: nat, m: nat, t: nat)
    requires m > 0 && t > 0
    ensures m as real * t as real > 0.0
    ensures n as real / (m as real * t as real) == Times(n, 1) as real / Times(m, t) as real
  {
    RealProduct(m, t);
  }

  lemma FloorOfRatio(n: nat, m: nat, x: real)
    requires m > 0 && x == n as real / m as real
    ensures Over(n, m) == x.Floor
  {
    RealFloor(n, m);
  }

  /** The computed quotient is the floor of the exact rational quotient. */
  lemma QuotientIsFloor(d: Decimal)
    requires d.digits > 0
    ensures Value(d) > 0.0
    ensures Quotient(d) == (ONE as real / Value(d)).Floor
  {
    hide Ten, Pow256, Over;
    var n, m, k := ONE, d.digits, d.exponent;
    if k < 0 {
      ValueSmall(n, m, Ten(-k));
      hide Times;
      FloorOfRatio(Times(n, Ten(-k)), Times(m, 1), n as real / Value(d));
    } else {
      ValueLarge(n, m, Ten(k));
      hide Times;
      FloorOfRatio(Times(n, 1), Times(m, Ten(k)), n as real / Value(d));
    }
  }

  lemma DivideMono(n: real, x: real, y: real)
    requires n >= 0.0 && 0.0 < x <= y
    ensures n / y <= n / x
  {
    var a, b := n / x, n / y;
    assert x * a == n && y * b == n;
    if b > a {
      if a < 0.0 {
        RealMono(x, a, 0.0);
      }
      RealMono(y, a, b);
      NonNegative(y - x, a);
    }
  }

  lemma NonNegative(x: real, y: real)
    requires x >= 0.0 && y >= 0.0
    ensures x * y >= 0.0
  {
  }

  /** The target is the clamped quotient of the difficulty-one target. */
  lemma TargetIsQuotient(text: string)
    requires Parse(text).Success?
    ensures DifficultyTarget(text).Success?
    ensures Value(Parse(text).value) > 0.0
    ensures Be(DifficultyTarget(text).value) == Min(LIMIT - 1, (ONE as real / Value(Parse(text).value)).Floor)
  {
    var d := Parse(text).value;
    ParsedPositive(text);
    QuotientIsFloor(d);
    BeOfBeBytes(Min(Quotient(d), LIMIT - 1), 32);
  }

  /** The target is min(2^256 - 1, floor(65535 * 2^208 / difficulty)), exactly. */
  lemma DifficultyTargetExact(text: string)
    requires Parse(text).Success?
    ensures DifficultyTarget(text).Success?
    ensures Value(Parse(text).value) > 0.0
    ensures Be(DifficultyTarget(text).value)
            == Min(Pow256(32) - 1, ((65535 * Pow256(26)) as real / Value(Parse(text).value)).Floor)
  {
    hide Pow256, DifficultyTarget, Value, Parse, Be;
    TargetIsQuotient(text);
  }

  /** A harder difficulty never gets a larger target, and equal difficulties get the same one. */
  lemma DifficultyAntitone(a: string, b: string)
    requires Parse(a).Success? && Parse(b).Success?
    requires Value(Parse(a).value) <= Value(Parse(b).value)
    ensures DifficultyTarget(a).Success? && DifficultyTarget(b).Success?
    ensures Be(DifficultyTarget(b).value) <= Be(DifficultyTarget(a).value)
    ensures Value(Parse(a).value) == Value(Parse(b).value) ==> DifficultyTarget(a) == DifficultyTarget(b)
  {
    TargetIsQuotient(a);
    TargetIsQuotient(b);
    DivideMono(ONE as real, Value(Parse(a).value), Value(Parse(b).value));
    if Value(Parse(a).value) == Value(Parse(b).value) {
      BeInjective(DifficultyTarget(a).value, DifficultyTarget(b).value);
    }
  }

  // ---------- What the decimal text means ----------

  lemma DigitsLast(s: string, c: char)
    requires AllDigits(s) && IsDigit(c)
    ensures AllDigits(s + [c])
    ensures Digits(s + [c]) == 10 * Digits(s) + (c as int - '0' as int)
  {
    var t := s + [c];
    assert t[..|t| - 1] == s && t[|t| - 1] == c;
  }

  lemma SplitLast(s: string)
    requires s != "" && AllDigits(s)
    ensures AllDigits(s[..|s| - 1]) && IsDigit(s[|s| - 1])
    ensures s == s[..|s| - 1] + [s[|s| - 1]]
  {
  }

  lemma JoinStep(d: nat, t: nat, e: nat, c: int)
    ensures 10 * (d * t + e) + c == d * (10 * t) + (10 * e + c)
  {
  }

  /** The value of digits written one string after the other. */
  lemma {:induction false} DigitsJoin(a: string, b: string)
    requires AllDigits(a) && AllDigits(b)
    ensures AllDigits(a + b)
    ensures Digits(a + b) == Digits(a) * Ten(|b|) + Digits(b)
  {
    if b == "" {
      assert a + b == a;
    } else {
      var b', c := b[..|b| - 1], b[|b| - 1];
      assert Ten(|b|) == 10 * Ten(|b'|);
      hide *;
      SplitLast(b);
      DigitsJoin(a, b');
      DigitsLast(b', c);
      DigitsLast(a + b', c);
      assert a + b == (a + b') + [c];
      JoinStep(Digits(a), Ten(|b'|), Digits(b'), c as int - '0' as int);
    }
  }

  lemma {:induction false} FirstOfJoin(a: string, c: char, b: string, stops: set<char>)
    requires c in stops && Avoids(a, stops)
    ensures FirstOf(a + [c] + b, stops) == |a|
  {
    var t := a + [c] + b;
    if a != "" {
      FirstOfJoin(a[1..], c, b, stops);
      assert t[1..] == a[1..] + [c] + b;
    }
  }

  lemma DigitsAvoid(a: string)
    requires AllDigits(a)
    ensures Avoids(a, {'.'}) && Avoids(a, {'e', 'E'})
  {
    forall i | 0 <= i < |a|
      ensures a[i] != '.' && a[i] != 'e' && a[i] != 'E'
    {
      assert IsDigit(a[i]);
    }
  }

  lemma Around(a: string, c: char, b: string)
    ensures (a + [c] + b)[..|a|] == a && (a + [c] + b)[|a| + 1..] == b
  {
  }

  predicate IsBlank(c: char) {
    c == ' ' || c == '\t' || c == '\n' || c == '\U{000b}' || c == '\U{000c}' || c == '\r'
  }

  predicate AllBlank(s: string) {
    forall i :: 0 <= i < |s| ==> IsBlank(s[i])
  }

  lemma {:induction false} BlanksSkipped(space: string, t: string)
    requires AllBlank(space)
    ensures SkipSpace(space + t) == SkipSpace(t)
  {
    if space == "" {
      assert space + t == t;
    } else {
      assert IsBlank(space[0]) && (space + t)[0] == space[0];
      assert (space + t)[1..] == space[1..] + t;
      BlanksSkipped(space[1..], t);
    }
  }

  lemma SignSkipped(sign: string, x: string)
    requires sign in {"", "+", "-"} && AllDigits(x) && x != ""
    ensures SkipSpace(sign + x) == sign + x
    ensures (sign + x)[0] == '-' <==> sign == "-"
    ensures (if (sign + x)[0] in "+-" then (sign + x)[1..] else sign + x) == x
  {
    var t := sign + x;
    assert IsDigit(x[0]);
    if sign == "" {
      assert t == x;
    } else {
      assert t[0] == sign[0] && t[1..] == x;
    }
  }

  lemma ExponentReads(space: string, sign: string, x: string)
    requires AllBlank(space) && sign in {"", "+", "-"}
    requires AllDigits(x) && x != "" && Digits(x) <= 300
    ensures Exponent(space + (sign + x)) == Success(Signed(sign == "-", Digits(x)))
  {
    BlanksSkipped(space, sign + x);
    SignSkipped(sign, x);
    hide AllDigits, Digits, SkipSpace, Signed;
  }

  lemma NoDigits()
    ensures Digits("") == 0 && AllDigits("")
  {
  }

  lemma MantissaReads(whole: string, fraction: string, exponent: int)
    requires AllDigits(whole) && AllDigits(fraction) && AllDigits(whole + fraction)
    requires Digits(whole + fraction) > 0
    ensures Mantissas(whole + "." + fraction, exponent)
            == Success(Decimal(Digits(whole + fraction), exponent - |fraction|))
  {
    hide AllDigits, Digits, FirstOf, Avoids;
    NoDigits();
    DigitsAvoid(whole);
    FirstOfJoin(whole, '.', fraction, {'.'});
    Around(whole, '.', fraction);
  }

  lemma {:induction false} FirstOfNone(a: string, stops: set<char>)
    requires Avoids(a, stops)
    ensures FirstOf(a, stops) == |a|
  {
    if a != "" {
      FirstOfNone(a[1..], stops);
    }
  }

  /** A mantissa without a point. */
  lemma WholeReads(whole: string, exponent: int)
    requires AllDigits(whole) && Digits(whole) > 0
    ensures Mantissas(whole, exponent) == Success(Decimal(Digits(whole), exponent))
  {
    DigitsAvoid(whole);
    FirstOfNone(whole, {'.'});
    assert Digits("") == 0;
    hide AllDigits, Digits, FirstOf;
    assert whole[..|whole|] == whole && whole + "" == whole;
  }

  /** How a decimal is written: a fraction after a point, and an exponent after e or E, are both optional. */
  datatype Literal = Literal(whole: string, fraction: Option<string>, exponent: Option<Mark>)

  datatype Mark = Mark(e: char, space: string, sign: string, digits: string)

  /** What comes after the exponent's mark: blanks are tolerated there. */
  function Tail(k: Mark): string {
    k.space + (k.sign + k.digits)
  }

  function MantissaText(l: Literal): string {
    match l.fraction case None => l.whole case Some(f) => l.whole + "." + f
  }

  function TextOf(l: Literal): string {
    match l.exponent case None => MantissaText(l) case Some(m) => MantissaText(l) + [m.e] + Tail(m)
  }

  function FractionOf(l: Literal): string {
    match l.fraction case None => "" case Some(f) => f
  }

  ghost predicate MarkOk(m: Mark) {
    && m.e in {'e', 'E'} && AllBlank(m.space) && m.sign in {"", "+", "-"}
    && AllDigits(m.digits) && m.digits != "" && Digits(m.digits) <= 300
  }

  /** Digits only where digits belong, not all zero, and within the size limits. */
  ghost predicate WellWritten(l: Literal) {
    && AllDigits(l.whole) && AllDigits(FractionOf(l)) && AllDigits(l.whole + FractionOf(l))
    && Digits(l.whole + FractionOf(l)) > 0
    && (l.exponent.Some? ==> MarkOk(l.exponent.value))
    && |TextOf(l)| <= 96
  }

  function ExponentOf(l: Literal): int
    requires l.exponent.Some? ==> AllDigits(l.exponent.value.digits)
  {
    match l.exponent case None => 0 case Some(m) => Signed(m.sign == "-", Digits(m.digits))
  }

  lemma MantissaAvoids(l: Literal)
    requires AllDigits(l.whole) && AllDigits(FractionOf(l))
    ensures Avoids(MantissaText(l), {'e', 'E'})
  {
    DigitsAvoid(l.whole);
    DigitsAvoid(FractionOf(l));
  }

  lemma MantissaTextReads(l: Literal, exponent: int)
    requires AllDigits(l.whole) && AllDigits(FractionOf(l)) && AllDigits(l.whole + FractionOf(l))
    requires Digits(l.whole + FractionOf(l)) > 0
    ensures MantissaText(l) != ""
    ensures Mantissas(MantissaText(l), exponent)
            == Success(Decimal(Digits(l.whole + FractionOf(l)), exponent - |FractionOf(l)|))
  {
    assert Digits("") == 0;
    hide Digits, AllDigits, Mantissas;
    match l.fraction
    case None =>
      assert l.whole + "" == l.whole;
      WholeReads(l.whole, exponent);
    case Some(f) => MantissaReads(l.whole, f, exponent);
  }

  lemma ParseUnmarked(m: string)
    requires Avoids(m, {'e', 'E'}) && 0 < |m| <= 96
    ensures Parse(m) == Mantissas(m, 0)
  {
    hide Mantissas, Exponent;
    FirstOfNone(m, {'e', 'E'});
    hide FirstOf, Avoids;
    assert m[..|m|] == m;
  }

  lemma ParseMarked(m: string, e: char, t: string)
    requires Avoids(m, {'e', 'E'}) && e in {'e', 'E'} && |m + [e] + t| <= 96 && Exponent(t).Success?
    ensures Parse(m + [e] + t) == Mantissas(m, Exponent(t).value)
  {
    hide Mantissas, Exponent;
    FirstOfJoin(m, e, t, {'e', 'E'});
    hide FirstOf, Avoids;
    Around(m, e, t);
  }

  lemma MarkedReads(m: string, k: Mark)
    requires Avoids(m, {'e', 'E'}) && MarkOk(k) && |m + [k.e] + Tail(k)| <= 96
    ensures Parse(m + [k.e] + Tail(k)) == Mantissas(m, Signed(k.sign == "-", Digits(k.digits)))
  {
    hide Digits, AllDigits, Mantissas, Exponent, Signed, Avoids, Parse;
    ExponentReads(k.space, k.sign, k.digits);
    ParseMarked(m, k.e, Tail(k));
  }

  /**
    Every well-written positive literal, with or without a fraction and with or without an exponent, is
    read as the number it shows: its digits, scaled by the exponent less the length of the fraction.
   */
  lemma ParseReads(l: Literal)
    requires WellWritten(l)
    ensures Parse(TextOf(l)) == Success(Decimal(Digits(l.whole + FractionOf(l)), ExponentOf(l) - |FractionOf(l)|))
  {
    hide Digits, AllDigits, Mantissas, MantissaText, FirstOf, Exponent, Signed, Avoids, Parse, FractionOf;
    MantissaAvoids(l);
    MantissaTextReads(l, ExponentOf(l));
    var m := MantissaText(l);
    match l.exponent
    case None => ParseUnmarked(m);
    case Some(k) => MarkedReads(m, k);
  }

  // ---------- Nothing else is read ----------

  lemma {:induction false} FirstOfStops(s: string, stops: set<char>)
    ensures Avoids(s[..FirstOf(s, stops)], stops)
    ensures FirstOf(s, stops) < |s| ==> s[FirstOf(s, stops)] in stops
  {
    if s != "" && s[0] !in stops {
      FirstOfStops(s[1..], stops);
      var i := FirstOf(s[1..], stops);
      assert s[..i + 1] == [s[0]] + s[1..][..i];
    }
  }

  lemma {:induction false} Blanks(t: string) returns (space: string)
    ensures AllBlank(space) && t == space + SkipSpace(t)
  {
    if t != "" && IsBlank(t[0]) {
      var rest := Blanks(t[1..]);
      space := [t[0]] + rest;
    } else {
      space := "";
    }
  }

  lemma MarkOf(e: char, t: string) returns (k: Mark)
    requires e in {'e', 'E'} && Exponent(t).Success?
    ensures MarkOk(k) && k.e == e && Tail(k) == t
  {
    var space := Blanks(t);
    var u := SkipSpace(t);
    hide SkipSpace, AllBlank, Signed;
    if u[0] == '-' {
      k := Mark(e, space, "-", u[1..]);
      assert u == "-" + u[1..];
    } else if u[0] == '+' {
      k := Mark(e, space, "+", u[1..]);
      assert u == "+" + u[1..];
    } else {
      k := Mark(e, space, "", u);
      assert u == "" + u;
    }
  }

  lemma Halves(a: string, b: string)
    requires AllDigits(a + b)
    ensures AllDigits(a) && AllDigits(b)
  {
    assert forall i :: 0 <= i < |a| ==> a[i] == (a + b)[i];
    assert forall i :: 0 <= i < |b| ==> b[i] == (a + b)[|a| + i];
  }

  lemma MantissaOf(m: string, exponent: int) returns (whole: string, fraction: Option<string>)
    requires Mantissas(m, exponent).Success?
    ensures var f := match fraction case None => "" case Some(f) => f;
            AllDigits(whole + f) && AllDigits(whole) && AllDigits(f) && Digits(whole + f) > 0
    ensures m == match fraction case None => whole case Some(f) => whole + "." + f
  {
    var dot := FirstOf(m, {'.'});
    FirstOfStops(m, {'.'});
    hide Digits, AllDigits;
    whole := m[..dot];
    if dot < |m| {
      fraction := Some(m[dot + 1..]);
      assert m == m[..dot] + "." + m[dot + 1..];
      Halves(whole, m[dot + 1..]);
    } else {
      fraction := None;
      Halves(whole, "");
      assert whole + "" == whole == m;
    }
  }

  /** Every text that is read is a well-written literal, so ParseReads says what every text that is read means. */
  lemma ParseOnlyReads(text: string) returns (l: Literal)
    requires Parse(text).Success?
    ensures WellWritten(l) && TextOf(l) == text
  {
    hide Digits, AllDigits, Mantissas, Exponent, FirstOf, Avoids, MarkOk, Tail;
    var e := FirstOf(text, {'e', 'E'});
    FirstOfStops(text, {'e', 'E'});
    if e < |text| {
      var whole, fraction := MantissaOf(text[..e], Exponent(text[e + 1..]).value);
      var k := MarkOf(text[e], text[e + 1..]);
      l := Literal(whole, fraction, Some(k));
      assert text == text[..e] + [text[e]] + text[e + 1..];
    } else {
      assert text[..e] == text;
      var whole, fraction := MantissaOf(text, 0);
      l := Literal(whole, fraction, None);
    }
  }
}
