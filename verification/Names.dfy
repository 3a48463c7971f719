/**
 Segment file names: "%06d" of the index, found by a glob for six digits and sorted as
 strings. Up to 999999 this is the order of the indices; beyond, the glob misses the file.
 */
module Names {

  const LAST_NAME := 999_999

  function Digit(d: nat): char
    requires d < 10
  {
    '0' + d as char
  }

  /** n in k decimal digits. */
  function Padded(n: nat, k: nat): (s: string)
    ensures |s| == k
  {
    if k == 0 then "" else Padded(n / 10, k - 1) + [Digit(n % 10)]
  }

  function Width(n: nat): (k: nat)
    ensures k > 0
  {
    if n < 10 then 1 else 1 + Width(n / 10)
  }

  /** fmt.Sprintf("%06d", n). */
  function Name(n: nat): string { Padded(n, if Width(n) < 6 then 6 else Width(n)) }

  /** The glob of six digits. */
  predicate Globbed(s: string) { |s| == 6 && forall c | c in s :: '0' <= c <= '9' }

  /** The order of sort.Strings. */
  predicate Less(s: string, t: string) {
    t != "" && (s == "" || s[0] < t[0] || (s[0] == t[0] && Less(s[1..], t[1..])))
  }

  function Power(k: nat): nat { if k == 0 then 1 else 10 * Power(k - 1) }

  lemma {:induction false} LessLast(s: string, t: string, a: char, b: char)
    requires |s| == |t|
    ensures Less(s + [a], t + [b]) <==> Less(s, t) || (s == t && a < b)
  {
    if s != "" {
      assert (s + [a])[1..] == s[1..] + [a] && (t + [b])[1..] == t[1..] + [b];
      LessLast(s[1..], t[1..], a, b);
      assert s == [s[0]] + s[1..] && t == [t[0]] + t[1..];
    } else {
      assert s + [a] == [a] && t + [b] == [b];
    }
  }

  lemma {:induction false} PaddedOrder(i: nat, j: nat, k: nat)
    requires i < Power(k) && j < Power(k)
    ensures Less(Padded(i, k), Padded(j, k)) <==> i < j
    ensures Padded(i, k) == Padded(j, k) <==> i == j
  {
    if k > 0 {
      PaddedOrder(i / 10, j / 10, k - 1);
      LessLast(Padded(i / 10, k - 1), Padded(j / 10, k - 1), Digit(i % 10), Digit(j % 10));
      assert Padded(i, k)[..k - 1] == Padded(i / 10, k - 1) && Padded(j, k)[..k - 1] == Padded(j / 10, k - 1);
      assert Padded(i, k)[k - 1] == Digit(i % 10) && Padded(j, k)[k - 1] == Digit(j % 10);
    }
  }

  lemma {:induction false} WidthPower(n: nat, k: nat)
    requires k > 0
    ensures n < Power(k) <==> Width(n) <= k
  {
    if n >= 10 && k > 1 {
      WidthPower(n / 10, k - 1);
    } else if k > 1 {
      assert Power(k) >= 10 by { PowerPositive(k - 1); }
    }
  }

  lemma {:induction false} PowerPositive(k: nat)
    ensures Power(k) >= 1
  {
    if k > 0 {
      PowerPositive(k - 1);
    }
  }

  lemma {:induction false} PaddedDigits(n: nat, k: nat)
    ensures forall c | c in Padded(n, k) :: '0' <= c <= '9'
  {
    if k > 0 {
      PaddedDigits(n / 10, k - 1);
    }
  }

  lemma PowerSix()
    ensures Power(6) == LAST_NAME + 1
  {
    assert Power(3) == 1000;
  }

  /** A segment is found exactly up to index 999999. */
  lemma FoundUpTo(n: nat)
    ensures Globbed(Name(n)) <==> n <= LAST_NAME
  {
    PowerSix();
    WidthPower(n, 6);
    PaddedDigits(n, 6);
  }

  /** Names of found segments sort as their indices do. */
  lemma NameOrder(i: nat, j: nat)
    requires i <= LAST_NAME && j <= LAST_NAME
    ensures Less(Name(i), Name(j)) <==> i < j
    ensures Name(i) == Name(j) <==> i == j
  {
    PowerSix();
    WidthPower(i, 6);
    WidthPower(j, 6);
    PaddedOrder(i, j, 6);
  }
}
