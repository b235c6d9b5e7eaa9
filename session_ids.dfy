/** Session identifiers.  A new session id is the current time in seconds
    written with six decimals (Python's '%.6f'); the eviction sweep reads a
    directory name back as a number of seconds with Python's float(). */
module SessionIds {
  import opened Wrappers

  const MicrosPerSecond: nat := 1000000
  const FractionDigits: nat := 6

  predicate IsDigit(c: char) {
    '0' <= c <= '9'
  }

  predicate AllDigits(s: string) {
    forall i :: 0 <= i < |s| ==> IsDigit(s[i])
  }

  function DigitValue(c: char): nat
    requires IsDigit(c)
  {
    (c as int - '0' as int) as nat
  }

  function DigitChar(d: nat): (c: char)
    requires d < 10
    ensures IsDigit(c) && DigitValue(c) == d
  {
    ('0' as int + d) as char
  }

  function Pow10(k: nat): (p: nat)
    ensures p > 0
  {
    if k == 0 then 1 else 10 * Pow10(k - 1)
  }

  /** The value of a string of decimal digits, most significant first. */
  function NatValue(s: string): nat
    requires AllDigits(s)
  {
    if s == [] then 0 else 10 * NatValue(s[..|s| - 1]) + DigitValue(s[|s| - 1])
  }

  /** The shortest decimal numeral for `n`. */
  function NatDigits(n: nat): (s: string)
    ensures AllDigits(s) && |s| > 0
  {
    if n < 10 then [DigitChar(n)] else NatDigits(n / 10) + [DigitChar(n % 10)]
  }

  /** `s` preceded by enough zeros to make it `width` characters long. */
  function ZeroPad(s: string, width: nat): (r: string)
    ensures |r| == if |s| < width then width else |s|
  {
    seq(if |s| < width then width - |s| else 0, _ => '0') + s
  }

  /** '%.6f' applied to `now` microseconds, read as seconds. */
  function FormatSessionId(now: nat): (s: string)
    ensures |s| >= FractionDigits + 2 && s[|s| - FractionDigits - 1] == '.'
    ensures AllDigits(s[..|s| - FractionDigits - 1]) && AllDigits(s[|s| - FractionDigits..])
  {
    var whole, fraction := NatDigits(now / MicrosPerSecond), ZeroPad(NatDigits(now % MicrosPerSecond), FractionDigits);
    FractionDigitsValue(now % MicrosPerSecond);
    var s := whole + "." + fraction;
    assert s[..|whole|] == whole && s[|whole| + 1..] == fraction;
    s
  }

  /** Index of the first '.', or |s| when there is none. */
  function DotIndex(s: string): (i: nat)
    ensures i <= |s|
    ensures i < |s| ==> s[i] == '.'
    ensures forall j :: 0 <= j < i ==> s[j] != '.'
  {
    if s == [] then 0 else if s[0] == '.' then 0 else 1 + DotIndex(s[1..])
  }

  /** The value of `whole` '.' `fraction`, when both are digit strings and
      not both empty. */
  function NumeralValue(whole: string, fraction: string): (r: Option<real>)
    ensures r.Some? ==> r.value >= 0.0
  {
    if AllDigits(whole) && AllDigits(fraction) && |whole| + |fraction| > 0 then
      Some(NatValue(whole) as real + NatValue(fraction) as real / Pow10(|fraction|) as real)
    else
      None
  }

  /** The value of an unsigned decimal numeral: digits, an optional '.'
      and more digits, with at least one digit in all. */
  function ParseUnsigned(body: string): Option<real> {
    var dot := DotIndex(body);
    NumeralValue(body[..dot], if dot < |body| then body[dot + 1..] else "")
  }

  /** The number of seconds a directory name denotes, as Python's float()
      reads a decimal numeral with an optional sign; anything else is not a
      number (None). */
  function ParseTimestamp(s: string): (r: Option<real>)
    ensures r.Some? ==> |s| > 0
    ensures r.Some? && r.value < 0.0 ==> s[0] == '-'
  {
    if |s| > 0 && (s[0] == '-' || s[0] == '+') then
      match ParseUnsigned(s[1..])
      case None => None
      case Some(magnitude) => Some(if s[0] == '-' then -magnitude else magnitude)
    else
      ParseUnsigned(s)
  }

  lemma UnsignedNumeralShape(body: string)
    requires ParseUnsigned(body).Some?
    ensures forall i :: 0 <= i < |body| ==> IsDigit(body[i]) || body[i] == '.'
    ensures exists i :: 0 <= i < |body| && IsDigit(body[i])
  {
    var dot := DotIndex(body);
    var whole := body[..dot];
    var fraction := if dot < |body| then body[dot + 1..] else "";
    forall i | 0 <= i < |body| ensures IsDigit(body[i]) || body[i] == '.' {
      if i < dot {
        assert body[i] == whole[i];
      } else if i > dot {
        assert body[i] == fraction[i - dot - 1];
      }
    }
    if |whole| > 0 {
      assert IsDigit(body[0]);
    } else {
      assert IsDigit(body[dot + 1]);
    }
  }

  /** A directory name the sweep takes for a timestamp consists of digits,
      signs and dots only, and holds at least one digit: a name with any
      other character is never a managed session. */
  lemma NumericNamesAreNumerals(s: string)
    requires ParseTimestamp(s).Some?
    ensures forall i :: 0 <= i < |s| ==> IsDigit(s[i]) || s[i] in "+-."
    ensures exists i :: 0 <= i < |s| && IsDigit(s[i])
  {
    if |s| > 0 && (s[0] == '-' || s[0] == '+') {
      var body := s[1..];
      UnsignedNumeralShape(body);
      assert forall i :: 1 <= i < |s| ==> s[i] == body[i - 1];
      var k :| 0 <= k < |body| && IsDigit(body[k]);
      assert IsDigit(s[k + 1]);
    } else {
      UnsignedNumeralShape(s);
    }
  }

  /** Seconds elapsed between timestamp `ts` and the clock reading `now`. */
  function AgeSeconds(now: nat, ts: real): real {
    now as real / MicrosPerSecond as real - ts
  }

  lemma {:induction false} NatValueOfDigits(n: nat)
    ensures NatValue(NatDigits(n)) == n
  {
    if n >= 10 {
      var s := NatDigits(n);
      assert s[..|s| - 1] == NatDigits(n / 10);
      NatValueOfDigits(n / 10);
    }
  }

  lemma {:induction false} DigitsLength(n: nat, k: nat)
    requires 0 < k && n < Pow10(k)
    ensures |NatDigits(n)| <= k
  {
    if n >= 10 {
      DigitsLength(n / 10, k - 1);
    }
  }

  lemma {:induction false} LeadingZerosAddNothing(z: nat, s: string)
    requires AllDigits(s)
    ensures AllDigits(seq(z, _ => '0') + s)
    ensures NatValue(seq(z, _ => '0') + s) == NatValue(s)
    decreases |s|, z
  {
    var t := seq(z, _ => '0') + s;
    if s == [] {
      assert t == seq(z, _ => '0');
      if z > 0 {
        assert t[..|t| - 1] == seq(z - 1, _ => '0') + [];
        LeadingZerosAddNothing(z - 1, []);
      }
    } else {
      assert t[..|t| - 1] == seq(z, _ => '0') + s[..|s| - 1];
      LeadingZerosAddNothing(z, s[..|s| - 1]);
    }
  }

  lemma {:induction false} DotAfterDigits(whole: string, rest: string)
    requires AllDigits(whole) && |rest| > 0 && rest[0] == '.'
    ensures DotIndex(whole + rest) == |whole|
  {
    if whole != [] {
      assert (whole + rest)[1..] == whole[1..] + rest;
      DotAfterDigits(whole[1..], rest);
    }
  }

  /** An unsigned numeral with a '.' reads as its whole part plus its
      fraction. */
  lemma ParseNumeral(whole: string, fraction: string)
    requires AllDigits(whole) && AllDigits(fraction) && |whole| > 0
    ensures ParseTimestamp(whole + "." + fraction) == NumeralValue(whole, fraction)
  {
    var s := whole + ("." + fraction);
    assert s == whole + "." + fraction;
    DotAfterDigits(whole, "." + fraction);
    assert s[..|whole|] == whole;
    assert s[|whole| + 1..] == fraction;
    assert IsDigit(s[0]);
  }

  lemma FractionDigitsValue(r: nat)
    requires r < MicrosPerSecond
    ensures var fraction := ZeroPad(NatDigits(r), FractionDigits);
            AllDigits(fraction) && |fraction| == FractionDigits && NatValue(fraction) == r
  {
    assert Pow10(6) == MicrosPerSecond;
    DigitsLength(r, 6);
    var z := FractionDigits - |NatDigits(r)|;
    assert ZeroPad(NatDigits(r), FractionDigits) == seq(z, _ => '0') + NatDigits(r);
    LeadingZerosAddNothing(z, NatDigits(r));
    NatValueOfDigits(r);
  }

  lemma FractionPower()
    ensures Pow10(FractionDigits) == MicrosPerSecond
  {
  }

  lemma SecondsOfMicros(now: nat)
    ensures (now / MicrosPerSecond) as real + (now % MicrosPerSecond) as real / MicrosPerSecond as real
            == now as real / MicrosPerSecond as real
  {
    var q, r := now / MicrosPerSecond, now % MicrosPerSecond;
    assert now == q * MicrosPerSecond + r;
    assert now as real == q as real * MicrosPerSecond as real + r as real;
  }

  /** The two parts of a formatted session id read back as the seconds the
      id was made from. */
  lemma NumeralOfParts(now: nat)
    ensures NumeralValue(NatDigits(now / MicrosPerSecond), ZeroPad(NatDigits(now % MicrosPerSecond), FractionDigits))
            == Some(now as real / MicrosPerSecond as real)
  {
    FractionDigitsValue(now % MicrosPerSecond);
    NatValueOfDigits(now / MicrosPerSecond);
    FractionPower();
    SecondsOfMicros(now);
  }

  /** A freshly generated session id reads back as exactly the time it was
      made from: every session directory the widget creates is one the
      eviction sweep manages. */
  lemma ParseFormatRoundTrip(now: nat)
    ensures ParseTimestamp(FormatSessionId(now)) == Some(now as real / MicrosPerSecond as real)
  {
    var whole, fraction := NatDigits(now / MicrosPerSecond), ZeroPad(NatDigits(now % MicrosPerSecond), FractionDigits);
    FractionDigitsValue(now % MicrosPerSecond);
    ParseNumeral(whole, fraction);
    NumeralOfParts(now);
  }

  /** Age of a session made at `t`, at clock reading `now`, compared with a
      window of `window` seconds. */
  lemma AgeOfSession(now: nat, t: nat, window: int)
    ensures AgeSeconds(now, t as real / MicrosPerSecond as real) > window as real
            <==> now - t > window * MicrosPerSecond
  {
  }
}
