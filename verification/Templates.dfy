/** Campaign message templates: finding variables, one-pass rendering, collapsing spaces. */
module Templates {
  import opened Wrappers
  import opened Text
  import opened Permutations
  import opened Media

  // ----- the variables of a template -----

  /** A whole {{ key }} at t[start..end], its key at t[keyStart..keyEnd]. */
  datatype Match = Match(start: nat, keyStart: nat, keyEnd: nat, end: nat)

  predicate IsKeyChar(c: char) {
    'A' <= c <= 'Z' || 'a' <= c <= 'z' || '0' <= c <= '9' || c == '_'
  }

  // \{\{\s*([A-Za-z0-9_]+)\s*\}\}
  ghost predicate IsMatch(t: string, m: Match) {
    && m.start + 2 <= m.keyStart < m.keyEnd <= m.end - 2 && m.end <= |t|
    && t[m.start] == '{' && t[m.start + 1] == '{' && t[m.end - 2] == '}' && t[m.end - 1] == '}'
    && (forall i | m.start + 2 <= i < m.keyStart :: IsAsciiSpace(t[i]))
    && (forall i | m.keyStart <= i < m.keyEnd :: IsKeyChar(t[i]))
    && (forall i | m.keyEnd <= i < m.end - 2 :: IsAsciiSpace(t[i]))
  }

  function PastSpaces(t: string, i: nat): (j: nat)
    requires i <= |t|
    ensures i <= j <= |t| && forall k | i <= k < j :: IsAsciiSpace(t[k])
    ensures j < |t| ==> !IsAsciiSpace(t[j])
    decreases |t| - i
  {
    if i < |t| && IsAsciiSpace(t[i]) then PastSpaces(t, i + 1) else i
  }

  function PastKey(t: string, i: nat): (j: nat)
    requires i <= |t|
    ensures i <= j <= |t| && forall k | i <= k < j :: IsKeyChar(t[k])
    ensures j < |t| ==> !IsKeyChar(t[j])
    decreases |t| - i
  {
    if i < |t| && IsKeyChar(t[i]) then PastKey(t, i + 1) else i
  }

  function MatchAt(t: string, i: nat): (m: Option<Match>)
    ensures m.Some? ==> m.value.start == i && IsMatch(t, m.value)
  {
    if i + 2 > |t| || t[i] != '{' || t[i + 1] != '{' then None
    else
      var keyStart := PastSpaces(t, i + 2);
      var keyEnd := PastKey(t, keyStart);
      var close := PastSpaces(t, keyEnd);
      if keyEnd == keyStart || close + 2 > |t| || t[close] != '}' || t[close + 1] != '}' then None
      else Some(Match(i, keyStart, keyEnd, close + 2))
  }

  // The scan at one place is exact.
  lemma MatchAtIsExact(t: string, m: Match)
    requires IsMatch(t, m)
    ensures MatchAt(t, m.start) == Some(m)
  {
    hide IsAsciiSpace, IsKeyChar, PastSpaces, PastKey;
    assert IsKeyChar(t[m.keyStart]);
    KindsApart(t[m.keyStart]);
    assert PastSpaces(t, m.start + 2) == m.keyStart;
    KindsApart(t[m.keyEnd]);
    assert PastKey(t, m.keyStart) == m.keyEnd;
    KindsApart(t[m.end - 2]);
    assert PastSpaces(t, m.keyEnd) == m.end - 2;
  }

  lemma KindsApart(c: char)
    ensures !(IsKeyChar(c) && IsAsciiSpace(c))
    ensures IsKeyChar(c) || IsAsciiSpace(c) ==> c != '{' && c != '}'
  {
  }

  // Matches lie one after another, none before from.
  ghost predicate InOrder(t: string, ms: seq<Match>, from: nat) {
    ms != [] ==> IsMatch(t, ms[0]) && from <= ms[0].start && InOrder(t, ms[1..], ms[0].end)
  }

  // Leftmost first and without overlap.
  function Matches(t: string, i: nat): (ms: seq<Match>)
    ensures InOrder(t, ms, i)
    decreases |t| - i
  {
    if i >= |t| then []
    else
      var m := MatchAt(t, i);
      if m.Some? then
        InText(t, m.value);
        [m.value] + Matches(t, m.value.end)
      else
        StillInOrder(t, Matches(t, i + 1), i + 1, i);
        Matches(t, i + 1)
  }

  lemma StillInOrder(t: string, ms: seq<Match>, from: nat, from': nat)
    requires InOrder(t, ms, from) && (ms != [] ==> from' <= ms[0].start)
    ensures InOrder(t, ms, from')
  {
  }

  lemma {:induction false} EachIsMatch(t: string, ms: seq<Match>, from: nat)
    requires InOrder(t, ms, from)
    ensures forall k | 0 <= k < |ms| :: IsMatch(t, ms[k])
    decreases |ms|
  {
    hide IsMatch;
    if ms != [] {
      EachIsMatch(t, ms[1..], ms[0].end);
      assert forall k | 1 <= k < |ms| :: ms[k] == ms[1..][k - 1];
    }
  }

  // A place inside a match starts no other.
  lemma NoMatchInside(t: string, m: Match, i: nat)
    requires IsMatch(t, m) && m.start < i < m.end
    ensures MatchAt(t, i).None?
  {
  }

  // So the scan of a whole template finds every match there is.
  lemma {:induction false} MatchesAreAll(t: string, i: nat, m: Match)
    requires IsMatch(t, m) && i <= m.start
    ensures m in Matches(t, i)
    decreases |t| - i
  {
    hide IsMatch, MatchAt;
    MatchAtIsExact(t, m);
    InText(t, m);
    var first := MatchAt(t, i);
    if first.Some? && first.value != m {
      if m.start < first.value.end {
        if i < m.start {
          NoMatchInside(t, first.value, m.start);
        }
        assert false;
      }
      InText(t, first.value);
      MatchesAreAll(t, first.value.end, m);
    } else if first.None? {
      MatchesAreAll(t, i + 1, m);
    }
  }

  lemma InText(t: string, m: Match)
    requires IsMatch(t, m)
    ensures m.start < m.keyStart < m.keyEnd < m.end <= |t|
  {
  }

  function Key(t: string): Match -> string {
    (m: Match) => if m.keyStart <= m.keyEnd <= |t| then t[m.keyStart..m.keyEnd] else ""
  }

  // The distinct variables, in order of first appearance.
  method ExtractVariables(t: string) returns (keys: seq<string>)
    ensures keys == FirstOccurrences(Map(Matches(t, 0), Key(t)))
  {
    hide IsMatch, FirstOccurrences, Matches, Map;
    var ms := Matches(t, 0);
    ghost var all := Map(ms, Key(t));
    EachIsMatch(t, ms, 0);
    var seen: set<string> := {};
    keys := [];
    FirstOfNone(all);
    for i := 0 to |ms|
      invariant keys == FirstOccurrences(all[..i])
      invariant forall x :: x in seen <==> x in all[..i]
    {
      InText(t, ms[i]);
      var key := t[ms[i].keyStart..ms[i].keyEnd];
      assert all[..i + 1] == all[..i] + [key];
      FirstOccurrencesNext(all[..i], key);
      if key !in seen {
        seen := seen + {key};
        keys := keys + [key];
      }
    }
    assert all[..|ms|] == all;
  }

  lemma FirstOfNone(s: seq<string>)
    ensures FirstOccurrences(s[..0]) == []
  {
  }

  // ----- rendering as edits of the template -----

  const SEPARATORS: seq<string> := [", ", "; ", " — "]

  type Vars = map<string, string>

  function Value(vars: Vars, key: string): string {
    if key in vars then TrimSpace(vars[key]) else ""
  }

  function SeparatorEnding(s: string): (r: Option<string>)
    ensures r.Some? ==> r.value in SEPARATORS && HasSuffix(s, r.value)
    ensures r.None? ==> forall sep | sep in SEPARATORS :: !HasSuffix(s, sep)
  {
    FirstIsIn(SEPARATORS, (sep: string) => HasSuffix(s, sep));
    First(SEPARATORS, (sep: string) => HasSuffix(s, sep))
  }

  function SeparatorStarting(s: string): (r: Option<string>)
    ensures r.Some? ==> r.value in SEPARATORS && HasPrefix(s, r.value)
    ensures r.None? ==> forall sep | sep in SEPARATORS :: !HasPrefix(s, sep)
  {
    FirstIsIn(SEPARATORS, (sep: string) => HasPrefix(s, sep));
    First(SEPARATORS, (sep: string) => HasPrefix(s, sep))
  }

  /** t[lo..hi] gives way to text. */
  datatype Edit = Edit(lo: nat, hi: nat, text: string)

  // What one match becomes, when the text before from is already settled.
  function EditOf(t: string, vars: Vars, m: Match, from: nat): (e: Edit)
    requires from <= m.start <= m.keyStart <= m.keyEnd <= m.end <= |t|
    ensures from <= e.lo <= m.start && m.end <= e.hi <= |t|
  {
    var value := Value(vars, t[m.keyStart..m.keyEnd]);
    if value != "" then Edit(m.start, m.end, value)
    else
      var before, after := SeparatorEnding(t[from..m.start]), SeparatorStarting(t[m.end..]);
      if before.Some? then Edit(m.start - |before.value|, m.end, "")
      else if after.Some? then Edit(m.start, m.end + |after.value|, "")
      else Edit(m.start, m.end, "")
  }

  // A dropped separator never reaches into the next match.
  lemma EditStopsBefore(t: string, vars: Vars, m: Match, from: nat, next: Match)
    requires IsMatch(t, m) && IsMatch(t, next) && from <= m.start && m.end <= next.start
    ensures EditOf(t, vars, m, from).hi <= next.start
  {
    hide Value;
    var after := SeparatorStarting(t[m.end..]);
    if after.Some? {
      assert forall k | 0 <= k < |after.value| :: after.value[k] == t[m.end + k];
      assert forall k | 0 <= k < |after.value| :: after.value[k] != '{';
    }
  }

  ghost function Edits(t: string, vars: Vars, ms: seq<Match>, from: nat): (es: seq<Edit>)
    requires InOrder(t, ms, from)
    ensures |es| == |ms|
    decreases |ms|
  {
    if ms == [] then []
    else
      var e := EditOf(t, vars, ms[0], from);
      RestInOrder(t, vars, ms, from);
      [e] + Edits(t, vars, ms[1..], e.hi)
  }

  lemma RestInOrder(t: string, vars: Vars, ms: seq<Match>, from: nat)
    requires InOrder(t, ms, from) && ms != []
    ensures InOrder(t, ms[1..], EditOf(t, vars, ms[0], from).hi)
  {
    hide IsMatch, EditOf;
    InText(t, ms[0]);
    if |ms| > 1 {
      EditStopsBefore(t, vars, ms[0], from, ms[1]);
    }
    StillInOrder(t, ms[1..], ms[0].end, EditOf(t, vars, ms[0], from).hi);
  }

  // Edits in order, none overlapping another.
  ghost predicate Disjoint(t: string, es: seq<Edit>, from: nat) {
    es != [] ==> from <= es[0].lo <= es[0].hi <= |t| && Disjoint(t, es[1..], es[0].hi)
  }

  // t from from on, with each edited part given by f and the rest kept.
  ghost function Splice(t: string, es: seq<Edit>, from: nat, f: Edit -> string): string
    requires Disjoint(t, es, from) && from <= |t|
    decreases |es|
  {
    if es == [] then t[from..]
    else t[from..es[0].lo] + f(es[0]) + Splice(t, es[1..], es[0].hi, f)
  }

  function NewText(e: Edit): string {
    e.text
  }

  function OldText(t: string): Edit -> string {
    (e: Edit) => if e.lo <= e.hi <= |t| then t[e.lo..e.hi] else ""
  }

  // What an edit takes out: the placeholder alone, or with one adjacent separator when its variable is empty.
  ghost predicate TakesOut(t: string, vars: Vars, m: Match, e: Edit) {
    && m.start <= m.keyStart <= m.keyEnd <= m.end <= |t| && e.lo <= m.start && m.end <= e.hi <= |t|
    && e.text == Value(vars, t[m.keyStart..m.keyEnd])
    && (e.text != "" ==> e.lo == m.start && e.hi == m.end)
    && (e.lo == m.start || (e.hi == m.end && t[e.lo..m.start] in SEPARATORS))
    && (e.hi == m.end || (e.lo == m.start && t[m.end..e.hi] in SEPARATORS))
  }

  // Nothing adjacent stays when the variable is empty, and the separator before goes first.
  ghost predicate LeavesNoSeparator(t: string, e: Edit, m: Match, from: nat) {
    && (e.text == "" && e.lo == m.start ==>
        from <= m.start <= |t| && forall sep | sep in SEPARATORS :: !HasSuffix(t[from..m.start], sep))
    && (e.text == "" && e.lo == m.start && e.hi == m.end ==>
          m.end <= |t| && forall sep | sep in SEPARATORS :: !HasPrefix(t[m.end..], sep))
  }

  lemma EditMeans(t: string, vars: Vars, m: Match, from: nat)
    requires IsMatch(t, m) && from <= m.start
    ensures TakesOut(t, vars, m, EditOf(t, vars, m, from))
    ensures LeavesNoSeparator(t, EditOf(t, vars, m, from), m, from)
  {
    hide Value, IsMatch, HasPrefix, HasSuffix, SeparatorEnding, SeparatorStarting;
    InText(t, m);
    SeparatorsAround(t, from, m.start, m.end);
  }

  lemma SeparatorsAround(t: string, from: nat, start: nat, end: nat)
    requires from <= start <= |t| && end <= |t|
    ensures SeparatorEnding(t[from..start]).Some? ==>
              var sep := SeparatorEnding(t[from..start]).value;
              |sep| <= start - from && t[start - |sep|..start] == sep && sep in SEPARATORS
    ensures SeparatorStarting(t[end..]).Some? ==>
              var sep := SeparatorStarting(t[end..]).value;
              |sep| <= |t| - end && t[end..end + |sep|] == sep && sep in SEPARATORS
    ensures SeparatorEnding(t[from..start]).None? ==> forall sep | sep in SEPARATORS :: !HasSuffix(t[from..start], sep)
    ensures SeparatorStarting(t[end..]).None? ==> forall sep | sep in SEPARATORS :: !HasPrefix(t[end..], sep)
  {
  }

  // Edits for ms, one each, on a text settled up to from.
  ghost predicate EditsOf(t: string, vars: Vars, ms: seq<Match>, es: seq<Edit>, from: nat) {
    && |es| == |ms|
    && (ms != [] ==>
          && TakesOut(t, vars, ms[0], es[0]) && LeavesNoSeparator(t, es[0], ms[0], from)
          && EditsOf(t, vars, ms[1..], es[1..], es[0].hi))
  }

  lemma {:induction false} EditsMean(t: string, vars: Vars, ms: seq<Match>, from: nat)
    requires InOrder(t, ms, from)
    ensures Disjoint(t, Edits(t, vars, ms, from), from)
    ensures EditsOf(t, vars, ms, Edits(t, vars, ms, from), from)
    decreases |ms|
  {
    hide IsMatch, EditOf, TakesOut, LeavesNoSeparator;
    if ms != [] {
      InText(t, ms[0]);
      var e := EditOf(t, vars, ms[0], from);
      EditMeans(t, vars, ms[0], from);
      RestInOrder(t, vars, ms, from);
      var rest := Edits(t, vars, ms[1..], e.hi);
      EditsMean(t, vars, ms[1..], e.hi);
      assert ([e] + rest)[1..] == rest;
    }
  }

  // Kept and cut parts together are the template: nothing is lost, duplicated or reordered.
  lemma {:induction false} SplicePartitions(t: string, es: seq<Edit>, from: nat)
    requires Disjoint(t, es, from) && from <= |t|
    ensures Splice(t, es, from, OldText(t)) == t[from..]
    decreases |es|
  {
    if es != [] {
      var lo, hi := es[0].lo, es[0].hi;
      SplicePartitions(t, es[1..], hi);
      CutInThree(t, from, lo, hi);
    }
  }

  lemma CutInThree(t: string, a: nat, b: nat, c: nat)
    requires a <= b <= c <= |t|
    ensures t[a..b] + t[b..c] + t[c..] == t[a..]
  {
  }

  // ----- plain substitution -----

  // Every match replaced by its value, nothing else touched.
  function Substituted(t: string, vars: Vars, i: nat): string
    decreases |t| - i
  {
    if i >= |t| then ""
    else
      var m := MatchAt(t, i);
      if m.Some? then
        InText(t, m.value);
        Value(vars, t[m.value.keyStart..m.value.keyEnd]) + Substituted(t, vars, m.value.end)
      else [t[i]] + Substituted(t, vars, i + 1)
  }

  ghost predicate AllFilled(t: string, vars: Vars, ms: seq<Match>) {
    forall k | 0 <= k < |ms| :: Value(vars, Key(t)(ms[k])) != ""
  }

  // With no empty variable, the edits amount to plain substitution.
  lemma {:induction false} FilledIsSubstitution(t: string, vars: Vars, i: nat, from: nat)
    requires from <= i <= |t| && InOrder(t, Matches(t, i), from) && AllFilled(t, vars, Matches(t, i))
    requires Disjoint(t, Edits(t, vars, Matches(t, i), from), from)
    ensures Splice(t, Edits(t, vars, Matches(t, i), from), from, NewText) == t[from..i] + Substituted(t, vars, i)
    decreases |t| - i
  {
    hide IsMatch, MatchAt, Value, Disjoint, InOrder, Edits, Splice, EditOf, Key, Matches, Substituted;
    var ms := Matches(t, i);
    Unfolded(t, vars, i);
    if i == |t| {
      NothingToSplice(t, vars, from);
    } else if MatchAt(t, i).None? {
      FilledIsSubstitution(t, vars, i + 1, from);
      assert t[from..i + 1] == t[from..i] + [t[i]];
    } else {
      var m := MatchAt(t, i).value;
      InText(t, m);
      var rest := Matches(t, m.end);
      assert AllFilled(t, vars, rest) && Value(vars, Key(t)(m)) != "" by {
        assert ms[0] == m && forall k | 0 <= k < |rest| :: rest[k] == ms[k + 1];
      }
      EditsMean(t, vars, rest, m.end);
      FilledIsSubstitution(t, vars, m.end, m.end);
      FilledStep(t, vars, m, rest, from);
    }
  }

  lemma Unfolded(t: string, vars: Vars, i: nat)
    ensures i >= |t| ==> Matches(t, i) == [] && Substituted(t, vars, i) == ""
    ensures i < |t| && MatchAt(t, i).None? ==>
              Matches(t, i) == Matches(t, i + 1) && Substituted(t, vars, i) == [t[i]] + Substituted(t, vars, i + 1)
    ensures i < |t| && MatchAt(t, i).Some? ==>
              var m := MatchAt(t, i).value;
              Matches(t, i) == [m] + Matches(t, m.end)
              && Substituted(t, vars, i) == Value(vars, Key(t)(m)) + Substituted(t, vars, m.end)
  {
  }

  lemma NothingToSplice(t: string, vars: Vars, from: nat)
    requires from <= |t|
    ensures Splice(t, Edits(t, vars, [], from), from, NewText) == t[from..|t|]
  {
  }

  lemma FilledStep(t: string, vars: Vars, m: Match, rest: seq<Match>, from: nat)
    requires IsMatch(t, m) && InOrder(t, [m] + rest, from) && InOrder(t, rest, m.end)
    requires Value(vars, Key(t)(m)) != ""
    requires Disjoint(t, Edits(t, vars, rest, m.end), m.end) && Disjoint(t, Edits(t, vars, [m] + rest, from), from)
    requires from <= |t| && m.end <= |t|
    ensures Splice(t, Edits(t, vars, [m] + rest, from), from, NewText)
            == t[from..m.start] + Value(vars, Key(t)(m)) + Splice(t, Edits(t, vars, rest, m.end), m.end, NewText)
  {
    hide Value, IsMatch;
    InText(t, m);
    assert ([m] + rest)[1..] == rest;
    var e := EditOf(t, vars, m, from);
    assert e == Edit(m.start, m.end, Value(vars, Key(t)(m)));
    var es := Edits(t, vars, [m] + rest, from);
    assert es == [e] + Edits(t, vars, rest, m.end);
    assert es[1..] == Edits(t, vars, rest, m.end);
  }

  // ----- collapsing spaces -----

  function CollapseSpaces(s: string): string {
    if |s| < 2 then s
    else if s[0] == ' ' && s[1] == ' ' then CollapseSpaces(s[1..])
    else [s[0]] + CollapseSpaces(s[1..])
  }

  predicate NoDoubleSpace(s: string) {
    forall i | 0 <= i < |s| - 1 :: !(s[i] == ' ' && s[i + 1] == ' ')
  }

  lemma {:induction false} CollapsedHasNoDouble(s: string)
    ensures NoDoubleSpace(CollapseSpaces(s))
    ensures s != "" ==> CollapseSpaces(s) != "" && CollapseSpaces(s)[0] == s[0]
  {
    if |s| >= 2 {
      CollapsedHasNoDouble(s[1..]);
    }
  }

  // It changes only what has a double space,
  lemma {:induction false} CollapseFixes(s: string)
    ensures CollapseSpaces(s) == s <==> NoDoubleSpace(s)
  {
    CollapsedHasNoDouble(s);
    if |s| >= 2 && NoDoubleSpace(s) {
      TailHasNoDouble(s);
      CollapseFixes(s[1..]);
      assert s == [s[0]] + s[1..];
    }
  }

  lemma TailHasNoDouble(s: string)
    requires s != "" && NoDoubleSpace(s)
    ensures NoDoubleSpace(s[1..])
  {
  }

  // and taking one space out of a pair makes no difference; together these say all it does.
  lemma {:induction false} CollapseStep(a: string, b: string)
    ensures CollapseSpaces(a + "  " + b) == CollapseSpaces(a + " " + b)
  {
    var two, one := a + "  " + b, a + " " + b;
    if a == "" {
      assert two[1..] == one;
    } else {
      CollapseStep(a[1..], b);
      assert two[1..] == a[1..] + "  " + b && one[1..] == a[1..] + " " + b;
    }
  }

  lemma TrimKeepsNoDouble(s: string)
    requires NoDoubleSpace(s)
    ensures NoDoubleSpace(TrimSpace(s))
  {
  }

  // ----- rendering -----

  // The template with its edits, before spaces are collapsed.
  ghost function Spliced(t: string, vars: Vars): string {
    EditsMean(t, vars, Matches(t, 0), 0);
    Splice(t, Edits(t, vars, Matches(t, 0), 0), 0, NewText)
  }

  ghost function Rendered(t: string, vars: Vars): string {
    TrimSpace(CollapseSpaces(Spliced(t, vars)))
  }

  method Render(t: string, vars: Vars) returns (r: string)
    ensures r == Rendered(t, vars)
  {
    hide IsMatch, CollapseSpaces, TrimSpace, EditOf, EditsOf, Matches, Value;
    var ms := Matches(t, 0);
    EditsMean(t, vars, ms, 0);
    if |ms| == 0 {
      return TrimSpace(CollapseSpaces(t));
    }
    var out: string, last: nat := "", 0;
    for i := 0 to |ms|
      invariant last <= |t| && InOrder(t, ms[i..], last)
      invariant Disjoint(t, Edits(t, vars, ms[i..], last), last)
      invariant Spliced(t, vars) == out + Splice(t, Edits(t, vars, ms[i..], last), last, NewText)
    {
      var m := ms[i];
      InText(t, m);
      ghost var e := EditOf(t, vars, m, last);
      RestInOrder(t, vars, ms[i..], last);
      assert ms[i..][1..] == ms[i + 1..];
      EditsMean(t, vars, ms[i + 1..], e.hi);
      var text, next := RenderOne(t, vars, m, last);
      out := out + text;
      last := next;
    }
    out := out + t[last..];
    return TrimSpace(CollapseSpaces(out));
  }

  // What one match adds to the output, and where the settled text then ends.
  method RenderOne(t: string, vars: Vars, m: Match, last: nat) returns (text: string, next: nat)
    requires last <= m.start <= m.keyStart <= m.keyEnd <= m.end <= |t|
    ensures var e := EditOf(t, vars, m, last); text == t[last..e.lo] + e.text && next == e.hi
  {
    hide Value;
    var segment := t[last..m.start];
    var value := Value(vars, t[m.keyStart..m.keyEnd]);
    if value != "" {
      return segment + value, m.end;
    }
    var before := SeparatorEnding(segment);
    if before.Some? {
      KeepFirst(t, last, m.start, |segment| - |before.value|);
      return segment[..|segment| - |before.value|], m.end;
    }
    var after := SeparatorStarting(t[m.end..]);
    if after.Some? {
      return segment, m.end + |after.value|;
    }
    return segment, m.end;
  }

  lemma KeepFirst(t: string, a: nat, b: nat, n: nat)
    requires a <= b <= |t| && n <= b - a
    ensures t[a..b][..n] == t[a..a + n]
  {
  }

  // ----- what rendering promises -----

  // One edit per placeholder, each taking out the placeholder and, when its variable is empty, at most one
  // adjacent separator; the rest of the template stands, in order. Then no two spaces run together.
  lemma RenderingMeans(t: string, vars: Vars)
    ensures var ms := Matches(t, 0);
            var es := Edits(t, vars, ms, 0);
            && Disjoint(t, es, 0) && EditsOf(t, vars, ms, es, 0)
            && Splice(t, es, 0, OldText(t)) == t && Splice(t, es, 0, NewText) == Spliced(t, vars)
    ensures NoDoubleSpace(Rendered(t, vars))
  {
    hide EditsOf, IsMatch, Disjoint, InOrder, Matches, Edits, Splice, CollapseSpaces, TrimSpace, NoDoubleSpace;
    var ms := Matches(t, 0);
    var es := Edits(t, vars, ms, 0);
    EditsMean(t, vars, ms, 0);
    SplicePartitions(t, es, 0);
    CollapsedHasNoDouble(Spliced(t, vars));
    TrimKeepsNoDouble(CollapseSpaces(Spliced(t, vars)));
  }

  // With every variable filled, rendering substitutes and does nothing else but tidy spaces.
  lemma FilledRendersPlainly(t: string, vars: Vars)
    requires AllFilled(t, vars, Matches(t, 0))
    ensures Spliced(t, vars) == Substituted(t, vars, 0)
  {
    EditsMean(t, vars, Matches(t, 0), 0);
    FilledIsSubstitution(t, vars, 0, 0);
  }

  // Rendering reads no variable beyond those the template names.
  lemma OnlyNamedVariables(t: string, vars: Vars, vars': Vars)
    requires forall key | key in FirstOccurrences(Map(Matches(t, 0), Key(t))) :: Value(vars, key) == Value(vars', key)
    ensures Rendered(t, vars) == Rendered(t, vars')
  {
    var ms := Matches(t, 0);
    var keys := Map(ms, Key(t));
    EachIsMatch(t, ms, 0);
    FirstOccurrencesCover(keys);
    assert forall k | 0 <= k < |ms| :: keys[k] in keys;
    SameEdits(t, vars, vars', ms, 0);
  }

  lemma {:induction false} SameEdits(t: string, vars: Vars, vars': Vars, ms: seq<Match>, from: nat)
    requires InOrder(t, ms, from)
    requires forall k | 0 <= k < |ms| :: Value(vars, Key(t)(ms[k])) == Value(vars', Key(t)(ms[k]))
    ensures Edits(t, vars, ms, from) == Edits(t, vars', ms, from)
    decreases |ms|
  {
    hide IsMatch, Value;
    if ms != [] {
      InText(t, ms[0]);
      RestInOrder(t, vars, ms, from);
      assert EditOf(t, vars, ms[0], from) == EditOf(t, vars', ms[0], from);
      SameEdits(t, vars, vars', ms[1..], EditOf(t, vars, ms[0], from).hi);
    }
  }
}
