/** What rendering makes of a template with one variable, case by case. */
module OneVariable {
  import opened Wrappers
  import opened Text
  import opened Templates

  predicate BraceFree(s: string) {
    forall i | 0 <= i < |s| :: s[i] != '{' && s[i] != '}'
  }

  predicate IsKey(key: string) {
    key != "" && forall i | 0 <= i < |key| :: IsKeyChar(key[i])
  }

  function Template(a: string, key: string, b: string): string {
    a + "{{" + key + "}}" + b
  }

  function TheMatch(a: string, key: string): Match {
    Match(|a|, |a| + 2, |a| + 2 + |key|, |a| + 4 + |key|)
  }

  // The parts of the template, by position.
  lemma PartsOf(a: string, key: string, b: string)
    ensures var t, m := Template(a, key, b), TheMatch(a, key);
            && |t| == m.end + |b| && t[..m.start] == a && t[m.keyStart..m.keyEnd] == key && t[m.end..] == b
            && t[m.start] == '{' && t[m.start + 1] == '{' && t[m.end - 2] == '}' && t[m.end - 1] == '}'
  {
    var t := Template(a, key, b);
    InThree(a, "{{", key + "}}" + b);
    InThree(a + "{{", key, "}}" + b);
    InThree(a + "{{" + key, "}}", b);
    assert t == a + "{{" + (key + "}}" + b);
    assert t == a + "{{" + key + ("}}" + b);
  }

  lemma InThree(x: string, y: string, z: string)
    ensures var t := x + y + z;
            t[..|x|] == x && t[|x|..|x| + |y|] == y && t[|x| + |y|..] == z
            && forall k | 0 <= k < |y| :: t[|x| + k] == y[k]
  {
  }

  lemma {:induction false} SkipPlain(t: string, i: nat, j: nat)
    requires i <= j <= |t| && forall k | i <= k < j :: t[k] != '{'
    ensures Matches(t, i) == Matches(t, j)
    decreases j - i
  {
    if i < j {
      assert MatchAt(t, i).None?;
      SkipPlain(t, i + 1, j);
    }
  }

  lemma OnlyMatch(a: string, key: string, b: string)
    requires BraceFree(a) && BraceFree(b) && IsKey(key)
    ensures Matches(Template(a, key, b), 0) == [TheMatch(a, key)] && IsMatch(Template(a, key, b), TheMatch(a, key))
  {
    hide Template, MatchAt;
    var t, m := Template(a, key, b), TheMatch(a, key);
    PartsOf(a, key, b);
    assert forall k | 0 <= k < m.start :: t[k] == a[k];
    assert forall k | m.keyStart <= k < m.keyEnd :: t[k] == key[k - m.keyStart];
    assert forall k | m.end <= k < |t| :: t[k] == b[k - m.end];
    MatchAtIsExact(t, m);
    SkipPlain(t, 0, m.start);
    SkipPlain(t, m.end, |t|);
  }

  lemma SpliceOne(t: string, e: Edit, f: Edit -> string)
    requires e.lo <= e.hi <= |t|
    ensures Disjoint(t, [e], 0) && Splice(t, [e], 0, f) == t[..e.lo] + f(e) + t[e.hi..]
  {
    assert [e][1..] == [];
    assert t[0..e.lo] == t[..e.lo];
  }

  // One match is one edit, spliced in.
  lemma OneEdit(a: string, key: string, b: string, vars: Vars)
    requires BraceFree(a) && BraceFree(b) && IsKey(key)
    ensures var t, m := Template(a, key, b), TheMatch(a, key);
            && |t| == m.end + |b|
            && var e := EditOf(t, vars, m, 0);
            e.lo <= m.start && m.end <= e.hi <= |t| && Spliced(t, vars) == t[..e.lo] + e.text + t[e.hi..]
  {
    hide Template, IsMatch, EditOf, Matches, Splice, Disjoint;
    var t, m := Template(a, key, b), TheMatch(a, key);
    PartsOf(a, key, b);
    OnlyMatch(a, key, b);
    var e := EditOf(t, vars, m, 0);
    assert [m][1..] == [] && Edits(t, vars, [m], 0) == [e];
    SpliceOne(t, e, NewText);
  }

  // What is kept of the text before it and after it.
  lemma KeptParts(a: string, key: string, b: string, vars: Vars)
    requires BraceFree(a) && BraceFree(b) && IsKey(key)
    ensures var value, before, after := Value(vars, key), SeparatorEnding(a), SeparatorStarting(b);
            Spliced(Template(a, key, b), vars)
            == if value != "" then a + value + b
               else if before.Some? then a[..|a| - |before.value|] + b
               else if after.Some? then a + b[|after.value|..]
               else a + b
  {
    hide Template, Spliced, SeparatorEnding, SeparatorStarting, Value;
    PartsOf(a, key, b);
    OneEdit(a, key, b, vars);
    var t, m, before := Template(a, key, b), TheMatch(a, key), SeparatorEnding(a);
    assert t[0..m.start] == a;
    if before.Some? {
      assert t[..m.start - |before.value|] == t[..m.start][..m.start - |before.value|];
    }
    assert forall n | 0 <= n <= |b| :: t[m.end + n..] == t[m.end..][n..];
  }

  lemma ValueIs(vars: Vars, key: string)
    ensures Value(vars, key) == "" <==> key !in vars || Blank(vars[key])
    ensures key in vars ==> Value(vars, key) == TrimSpace(vars[key])
  {
    if key in vars {
      TrimEmptyIffBlank(vars[key]);
    }
  }

  // A filled variable gives way to its own trimmed text.
  lemma FilledGivesItsText(a: string, key: string, b: string, vars: Vars)
    requires BraceFree(a) && BraceFree(b) && IsKey(key) && key in vars && !Blank(vars[key])
    ensures Spliced(Template(a, key, b), vars) == a + TrimSpace(vars[key]) + b
  {
    hide Template, TrimSpace, Blank, Spliced, Value;
    ValueIs(vars, key);
    KeptParts(a, key, b, vars);
  }

  // Of the separators, at most one ends a text and at most one starts it.
  lemma OneSeparator(s: string, sep: string)
    requires sep in {", ", "; ", " — "}
    ensures HasSuffix(s, sep) ==> SeparatorEnding(s) == Some(sep)
    ensures HasPrefix(s, sep) ==> SeparatorStarting(s) == Some(sep)
  {
    assert sep in SEPARATORS;
    if HasSuffix(s, sep) {
      var found := SeparatorEnding(s).value;
      assert found[|found| - 2] == s[|s| - 2] && sep[|sep| - 2] == s[|s| - 2];
    }
    if HasPrefix(s, sep) {
      var found := SeparatorStarting(s).value;
      assert found[0] == s[0] && sep[0] == s[0];
    }
  }

  lemma NoSeparator(s: string)
    ensures (forall sep | sep in {", ", "; ", " — "} :: !HasSuffix(s, sep)) ==> SeparatorEnding(s).None?
    ensures (forall sep | sep in {", ", "; ", " — "} :: !HasPrefix(s, sep)) ==> SeparatorStarting(s).None?
  {
    assert forall sep | sep in SEPARATORS :: sep in {", ", "; ", " — "};
  }

  // An empty one takes the separator before it along,
  lemma EmptyTakesSeparatorBefore(a: string, sep: string, key: string, b: string, vars: Vars)
    requires BraceFree(a) && BraceFree(b) && IsKey(key) && (key !in vars || Blank(vars[key]))
    requires sep in {", ", "; ", " — "}
    ensures Spliced(Template(a + sep, key, b), vars) == a + b
  {
    hide Template, Blank, Spliced, SeparatorEnding, SeparatorStarting, Value;
    ValueIs(vars, key);
    OneSeparator(a + sep, sep);
    KeptParts(a + sep, key, b, vars);
    assert (a + sep)[..|a|] == a;
  }

  // or, with none before, the one after it,
  lemma EmptyTakesSeparatorAfter(a: string, key: string, sep: string, b: string, vars: Vars)
    requires BraceFree(a) && BraceFree(b) && IsKey(key) && (key !in vars || Blank(vars[key]))
    requires sep in {", ", "; ", " — "} && forall other | other in {", ", "; ", " — "} :: !HasSuffix(a, other)
    ensures Spliced(Template(a, key, sep + b), vars) == a + b
  {
    hide Template, Blank, Spliced, SeparatorEnding, SeparatorStarting, Value;
    ValueIs(vars, key);
    NoSeparator(a);
    OneSeparator(sep + b, sep);
    KeptParts(a, key, sep + b, vars);
    assert (sep + b)[|sep|..] == b;
  }

  // and nothing else.
  lemma EmptyAloneGoes(a: string, key: string, b: string, vars: Vars)
    requires BraceFree(a) && BraceFree(b) && IsKey(key) && (key !in vars || Blank(vars[key]))
    requires forall sep | sep in {", ", "; ", " — "} :: !HasSuffix(a, sep) && !HasPrefix(b, sep)
    ensures Spliced(Template(a, key, b), vars) == a + b
  {
    hide Template, Blank, Spliced, SeparatorEnding, SeparatorStarting, Value;
    ValueIs(vars, key);
    NoSeparator(a);
    NoSeparator(b);
    KeptParts(a, key, b, vars);
  }
}
