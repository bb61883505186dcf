/** Recipient identities: phone numbers against a default country, and numeric chat ids. */
module Phones {
  import opened Wrappers
  import opened Text

  // A calling-code prefix of one to three digits.
  predicate ValidCountryCode(code: string) {
    1 <= |code| <= 3 && AllDigits(code)
  }

  const MIN_DIGITS := 7
  const MAX_DIGITS := 15

  function NormalizePhone(raw: string, country: string): Option<string> {
    var digits := DigitsOnly(raw);
    if |digits| == 11 && digits[0] == '8' then Some(country + digits[1..])
    else if country <= digits && |digits| == |country| + 10 then Some(digits)
    else if |digits| == 10 then Some(country + digits)
    else if MIN_DIGITS <= |digits| <= MAX_DIGITS then Some(digits)
    else None
  }

  lemma {:induction false} DigitsStay(d: string)
    requires AllDigits(d)
    ensures DigitsOnly(d) == d
  {
    if d != "" {
      DigitsStay(d[1..]);
      assert d == [d[0]] + d[1..];
    }
  }

  lemma {:induction false} DigitsConcat(a: string, b: string)
    ensures DigitsOnly(a + b) == DigitsOnly(a) + DigitsOnly(b)
  {
    hide DigitsOnly;
    if a == "" {
      DigitsStay("");
      assert a + b == b;
    } else {
      DigitsConcat(a[1..], b);
      assert (a + b)[1..] == a[1..] + b;
      DigitsStep(a);
      DigitsStep(a + b);
    }
  }

  lemma DigitsStep(s: string)
    requires s != ""
    ensures DigitsOnly(s) == (if IsDigit(s[0]) then [s[0]] else "") + DigitsOnly(s[1..])
  {
  }

  lemma {:induction false} NoDigits(s: string)
    requires forall i | 0 <= i < |s| :: !('0' <= s[i] <= '9')
    ensures DigitsOnly(s) == ""
  {
    if s != "" {
      NoDigits(s[1..]);
    }
  }

  // Whatever is written between the digits, a number is read the same: they alone and in order.
  lemma PunctuationIsIgnored(a: string, between: string, b: string, country: string)
    requires forall i | 0 <= i < |between| :: !('0' <= between[i] <= '9')
    ensures NormalizePhone(a + between + b, country) == NormalizePhone(a + b, country)
  {
    hide DigitsOnly;
    DigitsConcat(a, b);
    DigitsAround(a, between, b);
    NoDigits(between);
    assert DigitsOnly(a + between + b) == DigitsOnly(a + b);
  }

  lemma DigitsAround(a: string, between: string, b: string)
    ensures DigitsOnly(a + between + b) == DigitsOnly(a) + DigitsOnly(between) + DigitsOnly(b)
  {
    DigitsConcat(a, between);
    DigitsConcat(a + between, b);
  }

  // Digits are kept where they stand.
  lemma DigitsAreKept(a: string, d: string, b: string)
    requires AllDigits(d)
    ensures DigitsOnly(a + d + b) == DigitsOnly(a) + d + DigitsOnly(b)
  {
    DigitsAround(a, d, b);
    DigitsStay(d);
  }

  // Exactly the raw texts with a plausible number of digits are accepted, and what comes out
  // is again such a number.
  lemma PhoneIsPlausible(raw: string, country: string)
    requires ValidCountryCode(country)
    ensures NormalizePhone(raw, country).Some? <==> MIN_DIGITS <= |DigitsOnly(raw)| <= MAX_DIGITS
    ensures NormalizePhone(raw, country).Some? ==>
              var phone := NormalizePhone(raw, country).value;
              AllDigits(phone) && MIN_DIGITS <= |phone| <= MAX_DIGITS
  {
  }

  // A plausible number of another country keeps its digits.
  lemma ForeignNumberKept(raw: string, country: string)
    requires ValidCountryCode(country) && MIN_DIGITS <= |DigitsOnly(raw)| <= MAX_DIGITS
    ensures var digits := DigitsOnly(raw);
            NormalizePhone(raw, country) == Some(digits) <==>
              (|digits| != 10 && (|digits| == 11 && digits[0] == '8' ==> country == "8"))
  {
    var digits := DigitsOnly(raw);
    if |digits| == 11 && digits[0] == '8' {
      assert digits == "8" + digits[1..];
      if country + digits[1..] == digits {
        assert |country| == 1 && (country + digits[1..])[0] == country[0];
        assert country == "8";
      }
    }
  }

  // A normalized phone normalizes to itself.
  lemma PhoneIsStable(raw: string, country: string)
    requires ValidCountryCode(country) && NormalizePhone(raw, country).Some?
    ensures var phone := NormalizePhone(raw, country).value; NormalizePhone(phone, country) == Some(phone)
  {
    var phone := NormalizePhone(raw, country).value;
    PhoneIsPlausible(raw, country);
    DigitsStay(phone);
    if |phone| == 11 && phone[0] == '8' {
      assert |country| == 1 ==> country == [country[0]];
      assert phone == [phone[0]] + phone[1..];
    }
  }

  // The trunk, bare and international spellings of one national number are one identity.
  lemma SpellingsAgree(national: string, country: string, raw: string)
    requires ValidCountryCode(country) && |national| == 10 && AllDigits(national)
    requires DigitsOnly(raw) == "8" + national || DigitsOnly(raw) == national || DigitsOnly(raw) == country + national
    ensures NormalizePhone(raw, country) == Some(country + national)
  {
  }

  // Some spelling of the national number: trunk, bare or international.
  ghost predicate Spells(raw: string, national: string, country: string) {
    && |national| == 10 && AllDigits(national)
    && DigitsOnly(raw) in {"8" + national, national, country + national}
  }

  // Two accepted texts share an identity exactly when they have the same digits or spell one national number.
  lemma SameIdentityIff(a: string, b: string, country: string)
    requires ValidCountryCode(country)
    requires NormalizePhone(a, country).Some? && NormalizePhone(b, country).Some?
    ensures NormalizePhone(a, country) == NormalizePhone(b, country) <==>
            DigitsOnly(a) == DigitsOnly(b) || exists n :: Spells(a, n, country) && Spells(b, n, country)
  {
    if n :| Spells(a, n, country) && Spells(b, n, country) {
      SpellingsAgree(n, country, a);
      SpellingsAgree(n, country, b);
    }
    if NormalizePhone(a, country) == NormalizePhone(b, country) && DigitsOnly(a) != DigitsOnly(b) {
      var n := NormalizePhone(a, country).value[|country|..];
      NationalOf(a, country);
      NationalOf(b, country);
      assert Spells(a, n, country) && Spells(b, n, country);
    }
  }

  // What changes in normalizing, or already has the country's length, is a national number spelled out.
  lemma NationalOf(raw: string, country: string)
    requires ValidCountryCode(country) && NormalizePhone(raw, country).Some?
    ensures var phone := NormalizePhone(raw, country).value;
            phone == DigitsOnly(raw)
            || (country <= phone && Spells(raw, phone[|country|..], country))
    ensures var phone := NormalizePhone(raw, country).value;
            country <= phone && |phone| == |country| + 10 ==> Spells(raw, phone[|country|..], country)
  {
    var digits := DigitsOnly(raw);
    if |digits| == 11 && digits[0] == '8' {
      assert digits == "8" + digits[1..] && (country + digits[1..])[|country|..] == digits[1..];
    } else if country <= digits && |digits| == |country| + 10 {
      assert digits == country + digits[|country|..];
    } else if |digits| == 10 {
      assert (country + digits)[|country|..] == digits;
    }
  }

  // Normalizing never yields an implausible number exactly when the code is at most five
  // characters, all digits.
  lemma PlausibleExactlyFor(country: string)
    ensures (forall raw :: AlwaysPlausible(raw, country)) <==> AllDigits(country) && |country| <= 5
  {
    if AllDigits(country) && |country| <= 5 {
      forall raw ensures AlwaysPlausible(raw, country) {
      }
    } else {
      var ten := "0000000000";
      DigitsStay(ten);
      var phone := NormalizePhone(ten, country).value;
      assert phone == country + ten;
      assert forall i | 0 <= i < |country| :: phone[i] == country[i];
      assert !AlwaysPlausible(ten, country);
    }
  }

  ghost predicate AlwaysPlausible(raw: string, country: string) {
    NormalizePhone(raw, country).Some? ==>
      var phone := NormalizePhone(raw, country).value; AllDigits(phone) && MIN_DIGITS <= |phone| <= MAX_DIGITS
  }

  // ----- Telegram chat ids -----

  // An optional minus sign and digits.
  predicate IsChatID(s: string) {
    var digits := if HasPrefix(s, "-") then s[1..] else s;
    digits != "" && AllDigits(digits)
  }

  method NormalizeTelegramChatID(raw: string) returns (r: Option<string>)
    ensures r == if IsChatID(TrimSpace(raw)) then Some(TrimSpace(raw)) else None
  {
    hide TrimSpace;
    var s := TrimSpace(raw);
    var neg := HasPrefix(s, "-");
    var digits := s;
    if neg {
      digits := s[1..];
      assert s == "-" + digits;
    }
    if digits == "" {
      return None;
    }
    for i := 0 to |digits|
      invariant AllDigits(digits[..i])
    {
      assert digits[..i + 1] == digits[..i] + [digits[i]];
      if !IsDigit(digits[i]) {
        return None;
      }
    }
    assert digits[..|digits|] == digits;
    if neg {
      return Some("-" + digits);
    }
    return Some(digits);
  }
}
