/** Strings as sequences of characters: trimming, blankness, prefixes, order. */
module Text {
  import opened Wrappers

  // Unicode White_Space, which trimming removes.
  predicate IsSpace(c: char) {
    var u := c as int;
    || 9 <= u <= 13 || u == 32 || u == 0x85 || u == 0xA0 || u == 0x1680
    || 0x2000 <= u <= 0x200A || u == 0x2028 || u == 0x2029 || u == 0x202F || u == 0x205F || u == 0x3000
  }

  // RE2's \s.
  predicate IsAsciiSpace(c: char) {
    c == ' ' || c == '\t' || c == '\n' || c == '\r' || c as int == 12
  }

  predicate IsLetter(c: char) {
    'a' <= c <= 'z' || 'A' <= c <= 'Z'
  }

  predicate Blank(s: string) {
    forall i | 0 <= i < |s| :: IsSpace(s[i])
  }

  lemma BlankEmpty()
    ensures Blank("")
  {
  }

  function TrimLeft(s: string): (t: string)
    ensures |t| <= |s| && t == s[|s| - |t|..] && Blank(s[..|s| - |t|])
    ensures t == "" || !IsSpace(t[0])
  {
    if s != "" && IsSpace(s[0]) then TrimLeft(s[1..]) else s
  }

  function TrimRight(s: string): (t: string)
    ensures t <= s && Blank(s[|t|..])
    ensures t == "" || !IsSpace(t[|t| - 1])
  {
    if s != "" && IsSpace(s[|s| - 1]) then TrimRight(s[..|s| - 1]) else s
  }

  function TrimSpace(s: string): string {
    TrimRight(TrimLeft(s))
  }

  lemma SliceOfSlice(s: string, lo: nat, k: nat)
    requires lo <= |s| && k <= |s| - lo
    ensures s[lo..][..k] == s[lo..lo + k] && s[lo..][k..] == s[lo + k..]
  {
  }

  // Trimming keeps one span and drops only blank text around it.
  lemma TrimSpaceIsSpan(s: string) returns (lo: nat, hi: nat)
    ensures lo <= hi <= |s| && TrimSpace(s) == s[lo..hi] && Blank(s[..lo]) && Blank(s[hi..])
    ensures lo < hi ==> !IsSpace(s[lo]) && !IsSpace(s[hi - 1])
  {
    hide IsSpace, Blank, TrimLeft, TrimRight;
    var t := TrimLeft(s);
    var k := |TrimRight(t)|;
    lo := |s| - |t|;
    hi := lo + k;
    SliceOfSlice(s, lo, k);
    assert t == s[lo..] && TrimRight(t) == t[..k];
  }

  lemma TrimEmptyIffBlank(s: string)
    ensures TrimSpace(s) == "" <==> Blank(s)
  {
    var lo, hi := TrimSpaceIsSpan(s);
    if lo == hi {
      assert s == s[..lo] + s[hi..];
    }
  }

  // A text without space at either end stays as it is.
  lemma PlainIsTrimmed(s: string)
    requires s != "" && !IsSpace(s[0]) && !IsSpace(s[|s| - 1])
    ensures TrimSpace(s) == s
  {
  }

  predicate HasPrefix(s: string, p: string) {
    p <= s
  }

  predicate HasSuffix(s: string, p: string) {
    |p| <= |s| && s[|s| - |p|..] == p
  }

  predicate IsDigit(c: char) {
    '0' <= c <= '9'
  }

  predicate AllDigits(s: string) {
    forall i | 0 <= i < |s| :: IsDigit(s[i])
  }

  function DigitValue(c: char): nat
    requires IsDigit(c)
  {
    c as int - '0' as int
  }

  function DigitsOnly(s: string): (d: string)
    ensures AllDigits(d) && |d| <= |s|
  {
    if s == "" then ""
    else if IsDigit(s[0]) then [s[0]] + DigitsOnly(s[1..])
    else DigitsOnly(s[1..])
  }

  function Digit(n: nat): char
    requires n < 10
  {
    ('0' as int + n) as char
  }

  // A number in decimal.
  function Itoa(n: nat): (s: string)
    ensures s != "" && AllDigits(s)
  {
    if n < 10 then [Digit(n)] else Itoa(n / 10) + [Digit(n % 10)]
  }

  function Join(parts: seq<string>, sep: string): string {
    if parts == [] then ""
    else if |parts| == 1 then parts[0]
    else parts[0] + sep + Join(parts[1..], sep)
  }

  // Byte order of UTF-8 text is code-point order.
  predicate Less(a: string, b: string) {
    b != "" && (a == "" || a[0] < b[0] || (a[0] == b[0] && Less(a[1..], b[1..])))
  }

  // The first element that satisfies p, as a search loop that returns on a hit finds it.
  function First<T>(s: seq<T>, p: T -> bool): Option<T> {
    if s == [] then None else if p(s[0]) then Some(s[0]) else First(s[1..], p)
  }

  lemma {:induction false} FirstUnique<T>(s: seq<T>, p: T -> bool, i: nat)
    requires i < |s| && p(s[i])
    requires forall j | 0 <= j < i :: !p(s[j])
    ensures First(s, p) == Some(s[i])
  {
    if i > 0 {
      FirstUnique(s[1..], p, i - 1);
    }
  }

  lemma {:induction false} FirstIsIn<T>(s: seq<T>, p: T -> bool)
    ensures First(s, p).Some? ==> First(s, p).value in s && p(First(s, p).value)
    ensures First(s, p).None? ==> forall x | x in s :: !p(x)
  {
    if s != [] && !p(s[0]) {
      FirstIsIn(s[1..], p);
    }
  }
}
