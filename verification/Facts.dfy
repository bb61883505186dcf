/** Seller-authored facts: what one entity's list of them must satisfy. */
module Facts {
  import opened Wrappers
  import opened Text
  import opened Decimals
  import opened Permutations
  import opened Placeholders
  import opened KnowledgeBase
  import opened Registry
  import opened Mentions

  const MAX_ADDITIONAL_FACTS: nat := 50
  const MAX_FACT_INSTRUCTION_LEN: nat := 500
  const MAX_FACT_STRING_VALUE_LEN: nat := 300
  const MAX_SAFE_INTEGER: int := 9007199254740991
  const MAX_SAFE_SIGNIFICANT_DIGITS: nat := 15

  // ^[a-z][a-z0-9_]{0,63}$
  predicate ValidFactRef(ref: string) {
    && 1 <= |ref| <= 64 && 'a' <= ref[0] <= 'z'
    && forall i | 0 <= i < |ref| :: 'a' <= ref[i] <= 'z' || IsDigit(ref[i]) || ref[i] == '_'
  }

  // The kind a value substitutes as, and its text; a boolean has wording instead of text.
  function KindAndText(v: FactValue): (ValueKind, string) {
    match v
    case Number(digits) => (VirtualNumber, digits)
    case Flag(_) => (VirtualBoolean, "")
    case Words(s) => (VirtualString, TrimSpace(s))
  }

  // ----- numbers a browser edits without loss -----

  function Mantissa(s: string): string {
    if s == "" || s[0] == 'e' || s[0] == 'E' then "" else [s[0]] + Mantissa(s[1..])
  }

  function ParseInt64(s: string): Option<int> {
    var signed := s != "" && (s[0] == '-' || s[0] == '+');
    var digits := if signed then s[1..] else s;
    if digits == "" || !AllDigits(digits) then None
    else
      var n := if signed && s[0] == '-' then -(DecimalValue(digits) as int) else DecimalValue(digits);
      if -0x8000_0000_0000_0000 <= n < 0x8000_0000_0000_0000 then Some(n) else None
  }

  function TrimZerosLeft(s: string): string {
    if s != "" && s[0] == '0' then TrimZerosLeft(s[1..]) else s
  }

  function TrimZerosRight(s: string): string {
    if s != "" && s[|s| - 1] == '0' then TrimZerosRight(s[..|s| - 1]) else s
  }

  predicate NumberIsJSSafe(s: string) {
    var mantissa := Mantissa(s);
    if '.' !in mantissa then
      var n := ParseInt64(s);
      n.Some? && -MAX_SAFE_INTEGER <= n.value <= MAX_SAFE_INTEGER
    else
      |TrimZerosRight(TrimZerosLeft(DigitsOnly(mantissa)))| <= MAX_SAFE_SIGNIFICANT_DIGITS
  }

  lemma {:induction false} MantissaChar(s: string, c: char)
    requires c in Mantissa(s)
    ensures c in s
  {
    if c != s[0] {
      MantissaChar(s[1..], c);
    }
  }

  lemma SafeNumberNotBlank(s: string)
    requires NumberIsJSSafe(s)
    ensures !Blank(s)
  {
    if '.' in Mantissa(s) {
      MantissaChar(s, '.');
      var i :| 0 <= i < |s| && s[i] == '.';
      assert !IsSpace(s[i]);
    } else {
      assert !IsSpace(s[0]);
    }
  }

  // ----- validation -----

  predicate HasPlaceholder(s: string) {
    exists p | p in Scan(s) :: p.Slot?
  }

  predicate ValueOK(v: FactValue) {
    var (_, text) := KindAndText(v);
    && (v.Words? ==> text != "" && |text| <= MAX_FACT_STRING_VALUE_LEN)
    && (v.Number? ==> NumberIsJSSafe(v.digits))
  }

  ghost predicate InstructionOK(f: AdditionalFact, folding: Folding) {
    var instruction := TrimSpace(f.instruction);
    && instruction != "" && |instruction| <= MAX_FACT_INSTRUCTION_LEN
    && !HasPlaceholder(instruction)
    && (f.value.Flag? || !Mentioned(instruction, KindAndText(f.value).1, folding))
  }

  ghost predicate FactOK(f: AdditionalFact, reserved: seq<string>, folding: Folding) {
    ValidFactRef(f.ref) && f.ref !in reserved && ValueOK(f.value) && InstructionOK(f, folding)
  }

  ghost predicate AbsentFromProse(f: AdditionalFact, prose: seq<string>, folding: Folding) {
    f.value.Flag?
    || forall i | 0 <= i < |prose| :: prose[i] == "" || !Mentioned(prose[i], KindAndText(f.value).1, folding)
  }

  predicate OtherFact(f: AdditionalFact, g: AdditionalFact) {
    f.ref != g.ref
  }

  ghost predicate FactsOK(facts: seq<AdditionalFact>, reserved: seq<string>, prose: seq<string>, folding: Folding) {
    && |facts| <= MAX_ADDITIONAL_FACTS
    && Pairwise(facts, OtherFact)
    && forall i | 0 <= i < |facts| ::
         FactOK(facts[i], reserved, folding) && AbsentFromProse(facts[i], prose, folding)
  }

  // Of accepted facts, an exact value stands neither in its own instruction nor in any prose.
  lemma ExactValuesStayInFacts(facts: seq<AdditionalFact>, reserved: seq<string>, prose: seq<string>,
                               folding: Folding, f: AdditionalFact, value: string, text: string)
    requires FactsOK(facts, reserved, prose, folding) && f in facts
    requires f.value == Number(value) || (f.value.Words? && TrimSpace(f.value.s) == value)
    requires text == TrimSpace(f.instruction) || (text in prose && text != "")
    ensures !Mentioned(text, value, folding) && value != ""
  {
    var i :| 0 <= i < |facts| && facts[i] == f;
    assert FactOK(facts[i], reserved, folding) && AbsentFromProse(facts[i], prose, folding);
    if f.value.Number? {
      SafeNumberNotBlank(value);
    }
  }

  method ValidateFacts(facts: seq<AdditionalFact>, reserved: seq<string>, prose: seq<string>, folding: Folding)
    returns (ok: bool)
    ensures ok <==> FactsOK(facts, reserved, prose, folding)
  {
    hide FactOK, AbsentFromProse;
    if |facts| > MAX_ADDITIONAL_FACTS {
      return false;
    }
    var seen: set<string> := {};
    for i := 0 to |facts|
      invariant forall k | 0 <= k < i :: FactOK(facts[k], reserved, folding)
      invariant forall k, j | 0 <= k < j < i :: OtherFact(facts[k], facts[j])
      invariant forall r :: r in seen <==> exists k | 0 <= k < i :: facts[k].ref == r
    {
      var f := facts[i];
      if f.ref in seen {
        var k :| 0 <= k < i && facts[k].ref == f.ref;
        assert !OtherFact(facts[k], facts[i]);
        return false;
      }
      var valid := CheckFact(f, reserved, folding);
      if !valid {
        return false;
      }
      seen := seen + {f.ref};
    }
    for i := 0 to |facts|
      invariant forall k | 0 <= k < i :: AbsentFromProse(facts[k], prose, folding)
    {
      var absent := CheckProse(facts[i], prose, folding);
      if !absent {
        return false;
      }
    }
    return true;
  }

  method CheckFact(f: AdditionalFact, reserved: seq<string>, folding: Folding) returns (ok: bool)
    ensures ok <==> FactOK(f, reserved, folding)
  {
    hide TrimSpace, HasPlaceholder, NumberIsJSSafe, Mentioned, ValidFactRef;
    if !ValidFactRef(f.ref) || f.ref in reserved || !ValueOK(f.value) {
      return false;
    }
    var instruction := TrimSpace(f.instruction);
    if instruction == "" || |instruction| > MAX_FACT_INSTRUCTION_LEN || HasPlaceholder(instruction) {
      return false;
    }
    if f.value.Flag? {
      return true;
    }
    var found := ContainsLiteral(instruction, KindAndText(f.value).1, folding);
    return !found;
  }

  // A boolean has no text of its own to look for.
  method CheckProse(f: AdditionalFact, prose: seq<string>, folding: Folding) returns (ok: bool)
    ensures ok <==> AbsentFromProse(f, prose, folding)
  {
    hide TrimSpace, Mentioned;
    if f.value.Flag? {
      return true;
    }
    for i := 0 to |prose|
      invariant forall k | 0 <= k < i :: prose[k] == "" || !Mentioned(prose[k], KindAndText(f.value).1, folding)
    {
      if prose[i] != "" {
        var found := ContainsLiteral(prose[i], KindAndText(f.value).1, folding);
        if found {
          return false;
        }
      }
    }
    return true;
  }
}
