/**
 * The static helpers of src/common/utils/helpers.ts: phone-number checks and
 * formatting, OTP generation/verification arithmetic, and string utilities.
 * SHA-256 is a parameter (`hash`), and `Math.random()` is the integer draw it
 * is floored to.
 */
module Helpers {
  import opened Common

  // ---------------------------------------------------------------------
  // PhoneUtils
  // ---------------------------------------------------------------------

  /** E.164 (ITU-T Recommendation E.164, clause 6.2): at most 15 digits. */
  const E164MaxDigits := 15

  /** `/^\+[1-9]\d{1,14}$/.test(phone)` */
  function IsValidE164(phone: string): (ok: bool)
    ensures ok ==> 3 <= |phone| <= 1 + E164MaxDigits && phone[0] == '+'
    ensures ok ==> AllDigits(phone[1..]) && phone[1] != '0'
  {
    && 2 <= |phone|
    && phone[0] == '+'
    && '1' <= phone[1] <= '9'
    && 1 <= |phone[2..]| <= 14
    && AllDigits(phone[2..])
  }

  /** `phone.replace(/\D/g, '')`: the ASCII digits of `phone`, in order. */
  function DigitsOnly(phone: string): (r: string)
    ensures AllDigits(r) && |r| <= |phone|
    ensures AllDigits(phone) ==> r == phone
    ensures forall c :: IsDigit(c) ==> multiset(r)[c] == multiset(phone)[c]
  {
    if phone == [] then []
    else
      var rest := DigitsOnly(phone[..|phone| - 1]);
      var last := phone[|phone| - 1];
      assert phone == phone[..|phone| - 1] + [last];
      if IsDigit(last) then rest + [last] else rest
  }

  /** A single character is kept iff it is a digit. */
  lemma DigitsOnlyChar(c: char)
    ensures DigitsOnly([c]) == if IsDigit(c) then [c] else []
  {
    assert [c][..0] == [];
  }

  /** Digit extraction works piece by piece: the digits of `a + b` are those of `a`, then those of `b`. */
  lemma {:induction false} DigitsOnlyAppend(a: string, b: string)
    ensures DigitsOnly(a + b) == DigitsOnly(a) + DigitsOnly(b)
  {
    if b == [] {
      assert a + b == a;
    } else {
      var front, last := b[..|b| - 1], b[|b| - 1];
      assert (a + b)[..|a + b| - 1] == a + front;
      assert (a + b)[|a + b| - 1] == last;
      DigitsOnlyAppend(a, front);
    }
  }

  /** `PhoneUtils.formatToE164(phone, countryCode)` */
  function FormatToE164(phone: string, countryCode: string): (r: string)
    ensures |phone| > 0 && phone[0] == '+' ==> r == phone
    ensures !(|phone| > 0 && phone[0] == '+') ==>
              && r == countryCode + DigitsOnly(phone)
              && |r| == |countryCode| + |DigitsOnly(phone)|
              && r[..|countryCode|] == countryCode
              && AllDigits(r[|countryCode|..])
  {
    var digits := DigitsOnly(phone);
    if |phone| > 0 && phone[0] == '+' then phone else countryCode + digits
  }

  /** A country code of the form `+<digit 1-9><digits>` plus a local number that fits gives E.164. */
  lemma FormatToE164Valid(phone: string, countryCode: string)
    requires !(|phone| > 0 && phone[0] == '+')
    requires |countryCode| >= 2 && countryCode[0] == '+' && '1' <= countryCode[1] <= '9'
    requires AllDigits(countryCode[2..])
    requires 3 <= |countryCode| + |DigitsOnly(phone)| <= 1 + E164MaxDigits
    ensures IsValidE164(FormatToE164(phone, countryCode))
  {
    var d := DigitsOnly(phone);
    var r := FormatToE164(phone, countryCode);
    assert r == countryCode + d;
    assert r[0] == '+' && r[1] == countryCode[1];
    forall i | 2 <= i < |r| ensures IsDigit(r[i]) {
      if i < |countryCode| {
        assert r[i] == countryCode[2..][i - 2];
      } else {
        assert r[i] == d[i - |countryCode|];
      }
    }
    assert AllDigits(r[2..]);
  }

  /** Formatting twice is formatting once, for a `+`-prefixed (or empty) country code. */
  lemma FormatToE164Idempotent(phone: string, countryCode: string)
    requires countryCode == [] || countryCode[0] == '+'
    ensures FormatToE164(FormatToE164(phone, countryCode), countryCode)
         == FormatToE164(phone, countryCode)
  {
    var once := FormatToE164(phone, countryCode);
    if !(|phone| > 0 && phone[0] == '+') && countryCode == [] {
      assert once == DigitsOnly(phone);
      assert DigitsOnly(once) == once;
    }
  }

  /** `'*'.repeat(n)` */
  function Stars(n: nat): (r: string)
    ensures |r| == n && forall i :: 0 <= i < n ==> r[i] == '*'
  {
    seq(n, _ => '*')
  }

  /** `PhoneUtils.maskPhone(phone)`, e.g. +91******3210 */
  function MaskPhone(phone: string): (r: string)
    ensures |r| == |phone|
    ensures |phone| < 8 ==> r == phone
    ensures |phone| >= 8 ==>
              && r[..3] == phone[..3]
              && r[|phone| - 4..] == phone[|phone| - 4..]
              && forall i :: 3 <= i < |phone| - 4 ==> r[i] == '*'
  {
    if |phone| < 8 then phone
    else phone[..3] + Stars(|phone| - 7) + phone[|phone| - 4..]
  }

  // ---------------------------------------------------------------------
  // OTPUtils
  // ---------------------------------------------------------------------

  const OtpLength: nat := 6

  /**
   * `OTPUtils.generate(length)`: `floor(min + Math.random() * (max - min + 1))`
   * with min = 10^(length-1), max = 10^length - 1; `draw` is the integer part
   * of `Math.random() * (max - min + 1)`.
   */
  function Generate(length: nat, draw: nat): (code: string)
    requires length >= 1
    requires draw < Pow10(length) - Pow10(length - 1)
    ensures |code| == length && AllDigits(code) && code[0] != '0'
    ensures Pow10(length - 1) <= ParseNat(code) <= Pow10(length) - 1
  {
    var n := Pow10(length - 1) + draw;
    ShowNatLength(n, length);
    ParseShow(n);
    ShowNat(n)
  }

  /** `OTPUtils.verify(otp, digest)`: the digest of the candidate equals the stored digest. */
  function Verify(hash: string -> string, otp: string, digest: string): bool
  {
    hash(otp) == digest
  }

  lemma VerifyOwnDigest(hash: string -> string, otp: string, digest: string)
    ensures Verify(hash, otp, digest) <==> digest == hash(otp)
    ensures Verify(hash, otp, hash(otp))
  {
  }

  /** `OTPUtils.isExpired(expiryDate)` with the clock reading `now`: strictly in the past. */
  predicate IsExpired(expiresAt: int, now: int)
  {
    expiresAt < now
  }

  /** `OTPUtils.calculateExpiry(minutes)` with the clock reading `now`. */
  function CalculateExpiry(now: int, minutes: int): (expiresAt: int)
    ensures expiresAt - now == minutes * MinuteMs
    ensures minutes >= 0 ==> !IsExpired(expiresAt, now)
    ensures forall t :: IsExpired(expiresAt, t) <==> t > now + minutes * 60_000
  {
    now + minutes * MinuteMs
  }

  // ---------------------------------------------------------------------
  // StringUtils (ASCII letters only)
  // ---------------------------------------------------------------------

  function ToUpper(c: char): char
  {
    if 'a' <= c <= 'z' then (c as int - 32) as char else c
  }

  function ToLower(c: char): char
  {
    if 'A' <= c <= 'Z' then (c as int + 32) as char else c
  }

  function LowerAll(s: string): (r: string)
    ensures |r| == |s| && forall i :: 0 <= i < |s| ==> r[i] == ToLower(s[i])
  {
    seq(|s|, i requires 0 <= i < |s| => ToLower(s[i]))
  }

  /** `StringUtils.capitalize(str)`: `str.charAt(0).toUpperCase() + str.slice(1).toLowerCase()` */
  function Capitalize(s: string): (r: string)
    ensures |r| == |s|
    ensures |s| > 0 ==> r[0] == ToUpper(s[0])
    ensures forall i :: 1 <= i < |s| ==> r[i] == ToLower(s[i])
  {
    if s == [] then [] else [ToUpper(s[0])] + LowerAll(s[1..])
  }

  lemma CapitalizeIdempotent(s: string)
    ensures Capitalize(Capitalize(s)) == Capitalize(s)
  {
    var once := Capitalize(s);
    var twice := Capitalize(once);
    assert |twice| == |once|;
    forall i | 0 <= i < |once| ensures twice[i] == once[i] {
      if i > 0 {
        assert once[i] == ToLower(s[i]);
      }
    }
  }

  /** `StringUtils.truncate(str, maxLength)`; `substring` clamps a negative end to 0. */
  function Truncate(s: string, maxLength: int): (r: string)
    ensures |s| <= maxLength ==> r == s
    ensures |s| > maxLength && maxLength >= 3 ==>
              |r| == maxLength && r[..maxLength - 3] == s[..maxLength - 3] && r[maxLength - 3..] == "..."
    ensures |s| > maxLength && maxLength < 3 ==> r == "..."
  {
    if |s| <= maxLength then s
    else
      var keep := if maxLength - 3 < 0 then 0 else maxLength - 3;
      s[..keep] + "..."
  }
}
