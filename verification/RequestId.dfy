/**
 Request identity: IDKey and canonicalJSONNumber of internal/cdp/correlator.go.

 A JSON number text (RFC 8259, section 6) denotes the rational number its digits and its
 exponent spell; `canonicalJSONNumber` claims to give every such number one key.
 */
module RequestId {
  import opened Prelude

  // ---------------------------------------------------------------- number texts

  /** The submatches of jsonNumberPattern; an absent group is empty. */
  datatype NumberText = NumberText(negative: bool, whole: string, fraction: string, exponent: string)

  predicate IsDigit(c: char) { '0' <= c <= '9' }

  predicate Digits(s: string) { forall i | 0 <= i < |s| :: IsDigit(s[i]) }

  predicate SignedDigits(s: string) {
    var body := if s != "" && s[0] in {'+', '-'} then s[1..] else s;
    body != "" && Digits(body)
  }

  /** What the groups of a match look like, by the pattern. */
  predicate WellFormed(t: NumberText) {
    && t.whole != "" && Digits(t.whole) && (t.whole[0] == '0' ==> t.whole == "0")
    && Digits(t.fraction)
    && (t.exponent == "" || SignedDigits(t.exponent))
  }

  function Sign(negative: bool): string { if negative then "-" else "" }

  /** The text with these groups; `e` is the letter in front of the exponent. */
  function Render(t: NumberText, e: char): string {
    Sign(t.negative) + (t.whole + Tail(t.fraction, t.exponent, e))
  }

  function DigitRun(s: string): (n: nat)
    ensures n <= |s| && Digits(s[..n]) && (n < |s| ==> !IsDigit(s[n]))
  {
    if s == "" || !IsDigit(s[0]) then 0
    else
      var n := DigitRun(s[1..]);
      assert s[..1 + n] == [s[0]] + s[1..][..n];
      1 + n
  }

  /** The part of the pattern behind whole and fraction: nothing, or an exponent. */
  function MatchExponent(s: string): Option<string> {
    if s == "" then Some("")
    else if s[0] in {'e', 'E'} && SignedDigits(s[1..]) then Some(s[1..])
    else None
  }

  function MatchFraction(s: string): Option<(string, string)> {
    if s == "" || s[0] != '.' then
      (match MatchExponent(s) case None => None case Some(x) => Some(("", x)))
    else
      var n := DigitRun(s[1..]);
      if n == 0 then None
      else match MatchExponent(s[1 + n..]) case None => None case Some(x) => Some((s[1..1 + n], x))
  }

  function MatchUnsigned(negative: bool, s: string): Option<NumberText> {
    var run := DigitRun(s);
    if run == 0 then None
    else
      var n := if s[0] == '0' then 1 else run;
      match MatchFraction(s[n..])
      case None => None
      case Some((f, x)) => Some(NumberText(negative, s[..n], f, x))
  }

  /** jsonNumberPattern.FindStringSubmatch. */
  function FindSubmatch(s: string): Option<NumberText> {
    if s != "" && s[0] == '-' then MatchUnsigned(true, s[1..]) else MatchUnsigned(false, s)
  }

  lemma MatchFractionParts(s: string)
    requires MatchFraction(s).Some?
    ensures var (f, x) := MatchFraction(s).value; Digits(f) && (x == "" || SignedDigits(x))
  {
    if s != "" && s[0] == '.' {
      var n := DigitRun(s[1..]);
      assert s[1..1 + n] == s[1..][..n];
    }
  }

  /** The groups of a match look as the pattern says. */
  lemma MatchWellFormed(s: string)
    requires FindSubmatch(s).Some?
    ensures WellFormed(FindSubmatch(s).value)
  {
    var t := FindSubmatch(s).value;
    var body := if s != "" && s[0] == '-' then s[1..] else s;
    var run := DigitRun(body);
    var n := if body[0] == '0' then 1 else run;
    MatchFractionParts(body[n..]);
    assert t.whole == body[..n] && t.whole[0] == body[0];
    assert forall i | 0 <= i < n :: t.whole[i] == body[..run][i];
  }

  /** A fraction and an exponent as the text spells them. */
  function Tail(f: string, x: string, e: char): string {
    (if f == "" then "" else "." + f) + (if x == "" then "" else [e] + x)
  }

  lemma ExponentSpelled(s: string) returns (e: char)
    requires MatchExponent(s).Some?
    ensures e in {'e', 'E'}
    ensures var x := MatchExponent(s).value; s == if x == "" then "" else [e] + x
  {
    e := 'e';
    if s != "" {
      e := s[0];
      assert s == [e] + s[1..];
    }
  }

  lemma FractionSpelled(s: string) returns (e: char)
    requires MatchFraction(s).Some?
    ensures e in {'e', 'E'}
    ensures var (f, x) := MatchFraction(s).value; s == Tail(f, x, e)
  {
    if s == "" || s[0] != '.' {
      e := ExponentSpelled(s);
      assert "" + s == s;
    } else {
      var n := DigitRun(s[1..]);
      e := ExponentSpelled(s[1 + n..]);
      assert s == ("." + s[1..1 + n]) + s[1 + n..];
    }
  }

  lemma UnsignedSpelled(negative: bool, s: string) returns (e: char)
    requires MatchUnsigned(negative, s).Some?
    ensures e in {'e', 'E'}
    ensures var t := MatchUnsigned(negative, s).value; t.negative == negative && s == t.whole + Tail(t.fraction, t.exponent, e)
  {
    var t, n := UnsignedParts(negative, s);
    e := FractionSpelled(s[n..]);
    assert s == s[..n] + s[n..];
  }

  lemma UnsignedParts(negative: bool, s: string) returns (t: NumberText, n: nat)
    requires MatchUnsigned(negative, s).Some?
    ensures MatchUnsigned(negative, s) == Some(t) && n <= |s| && t.negative == negative && t.whole == s[..n]
    ensures MatchFraction(s[n..]) == Some((t.fraction, t.exponent))
  {
    t := MatchUnsigned(negative, s).value;
    n := if s[0] == '0' then 1 else DigitRun(s);
  }

  /** A match spells the text it was found in. */
  lemma MatchSpells(s: string) returns (e: char)
    requires FindSubmatch(s).Some?
    ensures e in {'e', 'E'} && s == Render(FindSubmatch(s).value, e)
  {
    if s != "" && s[0] == '-' {
      e := UnsignedSpelled(true, s[1..]);
      assert s == "-" + s[1..];
    } else {
      e := UnsignedSpelled(false, s);
      assert s == "" + s;
    }
  }

  lemma {:induction false} RunOf(d: string, rest: string)
    requires Digits(d) && (rest != "" ==> !IsDigit(rest[0]))
    ensures DigitRun(d + rest) == |d|
  {
    if d == "" {
      assert d + rest == rest;
    } else {
      assert (d + rest)[1..] == d[1..] + rest;
      RunOf(d[1..], rest);
    }
  }

  lemma ExponentComplete(x: string, e: char)
    requires (x == "" || SignedDigits(x)) && e in {'e', 'E'}
    ensures MatchExponent(if x == "" then "" else [e] + x) == Some(x)
  {
    assert ([e] + x)[1..] == x;
  }

  lemma FractionComplete(f: string, tail: string, x: string)
    requires Digits(f) && MatchExponent(tail) == Some(x)
    requires tail != "" ==> tail[0] in {'e', 'E'}
    ensures MatchFraction((if f == "" then "" else "." + f) + tail) == Some((f, x))
  {
    if f == "" {
      assert "" + tail == tail;
    } else {
      var s := "." + f + tail;
      assert s[1..] == f + tail;
      RunOf(f, tail);
      assert s[1..1 + |f|] == f && s[1 + |f|..] == tail;
    }
  }

  lemma UnsignedComplete(negative: bool, w: string, r: string, f: string, x: string)
    requires w != "" && Digits(w) && (w[0] == '0' ==> w == "0")
    requires MatchFraction(r) == Some((f, x)) && (r != "" ==> !IsDigit(r[0]))
    ensures MatchUnsigned(negative, w + r) == Some(NumberText(negative, w, f, x))
  {
    RunOf(w, r);
    assert (w + r)[..|w|] == w && (w + r)[|w|..] == r;
  }

  /** Every well-formed text is matched, with the groups it was made of. */
  lemma MatchComplete(t: NumberText, e: char)
    requires WellFormed(t) && e in {'e', 'E'}
    ensures FindSubmatch(Render(t, e)) == Some(t)
  {
    var tail := if t.exponent == "" then "" else [e] + t.exponent;
    var body := t.whole + Tail(t.fraction, t.exponent, e);
    ExponentComplete(t.exponent, e);
    FractionComplete(t.fraction, tail, t.exponent);
    UnsignedComplete(t.negative, t.whole, Tail(t.fraction, t.exponent, e), t.fraction, t.exponent);
    SignedMatch(t.negative, body);
  }

  lemma SignedMatch(negative: bool, body: string)
    requires body != "" && body[0] != '-'
    ensures FindSubmatch(Sign(negative) + body) == MatchUnsigned(negative, body)
  {
    assert ("-" + body)[1..] == body && "" + body == body;
  }

  // ---------------------------------------------------------------- the number denoted

  function DigitsValue(s: string): nat
    requires Digits(s)
  {
    if s == "" then 0 else DigitsValue(s[..|s| - 1]) * 10 + (s[|s| - 1] - '0') as nat
  }

  function SignedValue(s: string): int
    requires SignedDigits(s)
  {
    if s[0] == '-' then 0 - DigitsValue(s[1..]) else if s[0] == '+' then DigitsValue(s[1..]) else DigitsValue(s)
  }

  function Exponent(t: NumberText): int
    requires WellFormed(t)
  {
    if t.exponent == "" then 0 else SignedValue(t.exponent)
  }

  /** n times ten to the e. */
  function Scaled(n: nat, e: int): real
    decreases if e < 0 then -e else e
  {
    if e == 0 then n as real else if e > 0 then 10.0 * Scaled(n, e - 1) else Scaled(n, e + 1) / 10.0
  }

  /** The exponent once the decimal point is moved behind the last digit. */
  function Scale(t: NumberText): int
    requires WellFormed(t)
  {
    Exponent(t) - |t.fraction|
  }

  function Signed(negative: bool, x: real): real { if negative then -x else x }

  /** The rational number a text denotes. */
  function Denoted(t: NumberText): real
    requires WellFormed(t)
  {
    Signed(t.negative, Scaled(DigitsValue(t.whole + t.fraction), Scale(t)))
  }

  // ---------------------------------------------------------------- canonical keys

  /** strings.TrimLeft(s, "0"). */
  function TrimLeft(s: string): string {
    if s != "" && s[0] == '0' then TrimLeft(s[1..]) else s
  }

  function TrimRight(s: string): string {
    if s != "" && s[|s| - 1] == '0' then TrimRight(s[..|s| - 1]) else s
  }

  function Natural(n: nat): (s: string)
    ensures s != "" && Digits(s)
  {
    var d := '0' + (n % 10) as char;
    if n < 10 then [d] else Natural(n / 10) + [d]
  }

  /** big.Int's String. */
  function Decimal(n: int): string { if n < 0 then "-" + Natural(-n) else Natural(n) }

  function Spell(negative: bool, digits: string, scale: int): string {
    Sign(negative) + (digits + ("e" + Decimal(scale)))
  }

  /** The key of the number with these digits and this scale. */
  function KeyOf(negative: bool, all: string, scale: int): string {
    var digits := TrimLeft(all);
    if digits == "" then "0e0"
    else
      var kept := TrimRight(digits);
      Spell(negative, kept, scale + (|digits| - |kept|))
  }

  function Key(t: NumberText): string
    requires WellFormed(t)
  {
    KeyOf(t.negative, t.whole + t.fraction, Scale(t))
  }

  function CanonicalJSONNumber(s: string): Option<string> {
    match FindSubmatch(s)
    case None => None
    case Some(t) => MatchWellFormed(s); Some(Key(t))
  }

  /** canonicalJSONNumber, with its loop over the trailing zeros. */
  method Canonicalize(s: string) returns (key: Option<string>)
    ensures key == CanonicalJSONNumber(s)
  {
    var m := FindSubmatch(s);
    if m.None? {
      return None;
    }
    MatchWellFormed(s);
    var t := m.value;
    var digits := TrimLeft(t.whole + t.fraction);
    if digits == "" {
      return Some("0e0");
    }
    var scale := Scale(t);
    digits, scale := DropZeros(digits, scale);
    return Some(Spell(t.negative, digits, scale));
  }

  /** The loop: one trailing zero less, one more on the scale. */
  method DropZeros(digits: string, scale: int) returns (kept: string, moved: int)
    ensures kept == TrimRight(digits) && moved == scale + (|digits| - |kept|)
  {
    kept, moved := digits, scale;
    while kept != "" && kept[|kept| - 1] == '0'
      invariant |kept| <= |digits| && TrimRight(digits) == TrimRight(kept)
      invariant moved == scale + (|digits| - |kept|)
      decreases |kept|
    {
      kept, moved := kept[..|kept| - 1], moved + 1;
    }
  }

  /** Request IDs as decoded from JSON: a string, a number text, or anything else as %v shows it. */
  datatype Id = StringId(s: string) | NumberId(text: string) | OtherId(shown: string)

  function IDKey(id: Id): (string, bool) {
    match id
    case StringId(s) => ("s:" + s, true)
    case NumberId(text) =>
      (match CanonicalJSONNumber(text)
       case Some(k) => ("n:" + k, true)
       case None => ("x:" + text, false))
    case OtherId(shown) => ("x:" + shown, false)
  }

  // ---------------------------------------------------------------- one key per number

  lemma {:induction false} TrimLeftValue(s: string)
    requires Digits(s)
    ensures Digits(TrimLeft(s)) && DigitsValue(TrimLeft(s)) == DigitsValue(s)
    ensures TrimLeft(s) != "" ==> TrimLeft(s)[0] != '0'
  {
    if s != "" && s[0] == '0' {
      LeadingZero(s);
      TrimLeftValue(s[1..]);
    }
  }

  lemma {:induction false} LeadingZero(s: string)
    requires Digits(s) && s != "" && s[0] == '0'
    ensures DigitsValue(s[1..]) == DigitsValue(s)
  {
    if |s| > 1 {
      LeadingZero(s[..|s| - 1]);
      assert s[..|s| - 1][1..] == s[1..][..|s| - 2];
    }
  }

  lemma {:induction false} ScaledStep(n: nat, e: int)
    ensures Scaled(10 * n, e) == Scaled(n, e + 1)
    decreases if e < 0 then -e else e
  {
    if e > 0 {
      ScaledStep(n, e - 1);
    } else if e < 0 {
      ScaledStep(n, e + 1);
    }
  }

  lemma {:induction false} ScaledSign(n: nat, e: int)
    ensures (n == 0 ==> Scaled(n, e) == 0.0) && (n > 0 ==> Scaled(n, e) > 0.0)
    decreases if e < 0 then -e else e
  {
    if e > 0 {
      ScaledSign(n, e - 1);
    } else if e < 0 {
      ScaledSign(n, e + 1);
    }
  }

  lemma {:induction false} ScaledInjective(m: nat, n: nat, e: int)
    requires Scaled(m, e) == Scaled(n, e)
    ensures m == n
    decreases if e < 0 then -e else e
  {
    if e > 0 {
      ScaledInjective(m, n, e - 1);
    } else if e < 0 {
      ScaledInjective(m, n, e + 1);
    }
  }

  lemma {:induction false} TrimRightValue(s: string, e: int)
    requires Digits(s)
    ensures var k := TrimRight(s);
            && |k| <= |s| && Digits(k)
            && (k != "" ==> k[0] == s[0] && k[|k| - 1] != '0')
            && (k == "" ==> DigitsValue(s) == 0)
            && Scaled(DigitsValue(s), e) == Scaled(DigitsValue(k), e + (|s| - |k|))
  {
    if s != "" && s[|s| - 1] == '0' {
      var init := s[..|s| - 1];
      TrimRightValue(init, e + 1);
      ScaledStep(DigitsValue(init), e);
    }
  }

  function TenTimes(n: nat, j: nat): nat {
    if j == 0 then n else 10 * TenTimes(n, j - 1)
  }

  lemma {:induction false} ScaledDown(n: nat, j: nat, e: int)
    ensures Scaled(n, e + j) == Scaled(TenTimes(n, j), e)
  {
    if j > 0 {
      ScaledDown(n, j - 1, e + 1);
      ScaledStep(TenTimes(n, j - 1), e);
    }
  }

  /** Magnitudes without a trailing zero determine digits and scale. */
  lemma MagnitudeUnique(m: nat, d: int, n: nat, e: int)
    requires m % 10 != 0 && n % 10 != 0 && Scaled(m, d) == Scaled(n, e)
    ensures m == n && d == e
  {
    if d <= e {
      Smaller(m, d, n, e - d);
    } else {
      Smaller(n, e, m, d - e);
    }
  }

  lemma Smaller(m: nat, d: int, n: nat, j: nat)
    requires m % 10 != 0 && Scaled(m, d) == Scaled(n, d + j)
    ensures j == 0 && m == n
  {
    ScaledDown(n, j, d);
    ScaledInjective(m, TenTimes(n, j), d);
    if j > 0 {
      RemainderTen(TenTimes(n, j - 1), 0);
    }
  }

  /** Digit strings without a leading zero are determined by their value. */
  lemma {:induction false} DigitsUnique(s: string, t: string)
    requires Digits(s) && Digits(t) && DigitsValue(s) == DigitsValue(t)
    requires (s != "" ==> s[0] != '0') && (t != "" ==> t[0] != '0')
    ensures s == t
    decreases |s|
  {
    if s == "" {
      NonZero(t);
    } else if t == "" {
      NonZero(s);
    } else {
      var s', t' := s[..|s| - 1], t[..|t| - 1];
      assert s == s' + [s[|s| - 1]] && t == t' + [t[|t| - 1]];
      DigitsUnique(s', t');
    }
  }

  lemma {:induction false} NonZero(s: string)
    requires Digits(s)
    ensures s != "" && s[0] != '0' ==> DigitsValue(s) > 0
  {
    if |s| > 1 {
      NonZero(s[..|s| - 1]);
    }
  }

  lemma LastDigit(s: string)
    requires Digits(s) && s != "" && s[|s| - 1] != '0'
    ensures DigitsValue(s) % 10 != 0
  {
    RemainderTen(DigitsValue(s[..|s| - 1]), (s[|s| - 1] - '0') as nat);
  }

  lemma RemainderTen(q: nat, r: nat)
    requires r < 10
    ensures (q * 10 + r) % 10 == r
  {
  }

  lemma {:induction false} NaturalValue(n: nat)
    ensures DigitsValue(Natural(n)) == n
  {
    var s := Natural(n);
    if n >= 10 {
      NaturalValue(n / 10);
      assert s[..|s| - 1] == Natural(n / 10);
    } else {
      assert s[..0] == "";
    }
  }

  lemma DecimalUnique(m: int, n: int)
    requires Decimal(m) == Decimal(n)
    ensures m == n
  {
    NaturalValue(if m < 0 then -m else m);
    NaturalValue(if n < 0 then -n else n);
    assert (m < 0) == (Decimal(m)[0] == '-') && (n < 0) == (Decimal(n)[0] == '-');
    if m < 0 {
      assert Decimal(m)[1..] == Natural(-m) && Decimal(n)[1..] == Natural(-n);
    }
  }

  /** The normal form behind a key: no digits at all, or digits without outer zeros, and a scale. */
  lemma Normal(negative: bool, all: string, e: int) returns (kept: string, scale: int)
    requires Digits(all)
    ensures Digits(kept)
    ensures kept == "" ==> KeyOf(negative, all, e) == "0e0" && Scaled(DigitsValue(all), e) == 0.0
    ensures kept != "" ==> kept[0] != '0' && DigitsValue(kept) > 0 && DigitsValue(kept) % 10 != 0
    ensures kept != "" ==> KeyOf(negative, all, e) == Spell(negative, kept, scale)
    ensures kept != "" ==> Scaled(DigitsValue(all), e) == Scaled(DigitsValue(kept), scale)
  {
    Trimmed(all, e);
    var digits := TrimLeft(all);
    kept := TrimRight(digits);
    scale := e + (|digits| - |kept|);
  }

  /** Trimming both ends keeps the number, and keeps nothing exactly of zero. */
  lemma Trimmed(all: string, e: int)
    requires Digits(all)
    ensures var digits := TrimLeft(all);
            var kept := TrimRight(digits);
            && |kept| <= |digits| && Digits(kept)
            && (kept == "" <==> digits == "")
            && (kept == "" ==> Scaled(DigitsValue(all), e) == 0.0)
            && (kept != "" ==> kept[0] != '0' && DigitsValue(kept) > 0 && DigitsValue(kept) % 10 != 0)
            && (kept != "" ==> Scaled(DigitsValue(all), e) == Scaled(DigitsValue(kept), e + (|digits| - |kept|)))
  {
    var digits := TrimLeft(all);
    var kept := TrimRight(digits);
    TrimLeftValue(all);
    TrimRightValue(digits, e);
    NonZero(digits);
    ScaledSign(DigitsValue(all), e);
    if kept != "" {
      NonZero(kept);
      LastDigit(kept);
    }
  }

  lemma SplitUnique(s: string, d: string, t: string, e: string)
    requires Digits(s) && Digits(t) && s + ("e" + d) == t + ("e" + e)
    ensures s == t && d == e
  {
    var a, b := s + ("e" + d), t + ("e" + e);
    assert a[|s|] == 'e' && b[|t|] == 'e';
    assert forall i | 0 <= i < |s| :: a[i] == s[i];
    assert forall i | 0 <= i < |t| :: b[i] == t[i];
    assert a[..|s|] == s && b[..|s|] == t;
    assert a[|s| + 1..] == d && b[|s| + 1..] == e;
  }

  /** A spelling determines what it spells. */
  lemma SpellUnique(n: bool, s: string, d: int, m: bool, t: string, e: int)
    requires Digits(s) && s != "" && Digits(t) && t != ""
    requires Spell(n, s, d) == Spell(m, t, e)
    ensures n == m && s == t && d == e
  {
    var a, b := s + ("e" + Decimal(d)), t + ("e" + Decimal(e));
    assert a[0] == s[0] && b[0] == t[0];
    assert ("-" + a)[0] == '-' && ("-" + b)[0] == '-' && "" + a == a && "" + b == b;
    assert n == m;
    assert ("-" + a)[1..] == a && ("-" + b)[1..] == b;
    SplitUnique(s, Decimal(d), t, Decimal(e));
    DecimalUnique(d, e);
  }

  /** "0e0" is the key of zero only. */
  lemma ZeroKeyApart(n: bool, s: string, d: int)
    requires Digits(s) && s != "" && s[0] != '0'
    ensures Spell(n, s, d) != "0e0"
  {
    assert Spell(n, s, d)[0] == (if n then '-' else s[0]);
  }

  lemma NonZeroCase(n: bool, s: string, d: int, m: bool, r: string, e: int)
    requires Digits(s) && s != "" && s[0] != '0' && DigitsValue(s) % 10 != 0
    requires Digits(r) && r != "" && r[0] != '0' && DigitsValue(r) % 10 != 0
    ensures Spell(n, s, d) == Spell(m, r, e)
            <==> Signed(n, Scaled(DigitsValue(s), d)) == Signed(m, Scaled(DigitsValue(r), e))
  {
    if Spell(n, s, d) == Spell(m, r, e) {
      SpellUnique(n, s, d, m, r, e);
    }
    ScaledSign(DigitsValue(s), d);
    ScaledSign(DigitsValue(r), e);
    if Signed(n, Scaled(DigitsValue(s), d)) == Signed(m, Scaled(DigitsValue(r), e)) {
      MagnitudeUnique(DigitsValue(s), d, DigitsValue(r), e);
      DigitsUnique(s, r);
    }
  }

  /** Two number texts get the same key exactly when they denote the same rational number. */
  lemma SameKeyIffSameNumber(t: NumberText, u: NumberText)
    requires WellFormed(t) && WellFormed(u)
    ensures Key(t) == Key(u) <==> Denoted(t) == Denoted(u)
  {
    var s, d := Normal(t.negative, t.whole + t.fraction, Scale(t));
    var r, e := Normal(u.negative, u.whole + u.fraction, Scale(u));
    if s != "" {
      ScaledSign(DigitsValue(s), d);
      ZeroKeyApart(t.negative, s, d);
    }
    if r != "" {
      ScaledSign(DigitsValue(r), e);
      ZeroKeyApart(u.negative, r, e);
    }
    if s != "" && r != "" {
      NonZeroCase(t.negative, s, d, u.negative, r, e);
    }
  }

  function NumberOf(s: string): real
    requires FindSubmatch(s).Some?
  {
    MatchWellFormed(s);
    Denoted(FindSubmatch(s).value)
  }

  /** Keys of request IDs: equal exactly for equal strings or equal numbers, never across the kinds. */
  lemma IDKeysAgree(a: Id, b: Id)
    requires IDKey(a).1 && IDKey(b).1
    ensures IDKey(a).0 == IDKey(b).0 <==>
            match (a, b)
            case (StringId(s), StringId(t)) => s == t
            case (NumberId(s), NumberId(t)) =>
              FindSubmatch(s).Some? && FindSubmatch(t).Some? && NumberOf(s) == NumberOf(t)
            case _ => false
  {
    var p, q := IDKey(a).0, IDKey(b).0;
    assert a.StringId? ==> p[0] == 's' && p[2..] == a.s;
    assert b.StringId? ==> q[0] == 's' && q[2..] == b.s;
    if a.NumberId? {
      assert p[0] == 'n' && Some(p[2..]) == CanonicalJSONNumber(a.text);
    }
    if b.NumberId? {
      assert q[0] == 'n' && Some(q[2..]) == CanonicalJSONNumber(b.text);
    }
    if a.NumberId? && b.NumberId? {
      MatchWellFormed(a.text);
      MatchWellFormed(b.text);
      SameKeyIffSameNumber(FindSubmatch(a.text).value, FindSubmatch(b.text).value);
    }
  }

  /** What an ID that is neither a string nor a JSON number shows. */
  function Shown(id: Id): Option<string> {
    match id
    case StringId(_) => None
    case NumberId(text) => if FindSubmatch(text).Some? then None else Some(text)
    case OtherId(shown) => Some(shown)
  }

  /** An ID is stable exactly if it is a string or a JSON number. */
  lemma StableExact(id: Id)
    ensures IDKey(id).1 <==> id.StringId? || (id.NumberId? && FindSubmatch(id.text).Some?)
  {
  }

  /** For all IDs, stable or not: equal keys are equal strings, equal numbers, or else equal texts. */
  lemma AllKeysAgree(a: Id, b: Id)
    ensures IDKey(a).0 == IDKey(b).0
            <==> || (a.StringId? && b.StringId? && a.s == b.s)
                 || (a.NumberId? && b.NumberId? && FindSubmatch(a.text).Some? && FindSubmatch(b.text).Some?
                     && NumberOf(a.text) == NumberOf(b.text))
                 || (Shown(a).Some? && Shown(a) == Shown(b))
  {
    StableExact(a);
    StableExact(b);
    if IDKey(a).1 && IDKey(b).1 {
      IDKeysAgree(a, b);
    } else {
      Unstable(a);
      Unstable(b);
    }
  }

  lemma Unstable(id: Id)
    ensures Shown(id).Some? ==> IDKey(id).0[0] == 'x' && IDKey(id).0[2..] == Shown(id).value && IDKey(id).0 == "x:" + Shown(id).value
    ensures Shown(id).None? ==> IDKey(id).0[0] in {'s', 'n'}
  {
  }
}
