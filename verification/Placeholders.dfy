/** Scanning a text for {{...}} placeholders, leftmost first and without overlap. */
module Placeholders {
  import opened Permutations

  predicate IsBrace(c: char) {
    c == '{' || c == '}'
  }

  predicate HasBrace(s: string) {
    exists i | 0 <= i < |s| :: IsBrace(s[i])
  }

  lemma HasBraceIff(s: string)
    ensures HasBrace(s) <==> '{' in s || '}' in s
  {
  }

  // "{{", brace-free text, "}}".
  predicate IsPlaceholder(s: string) {
    && |s| >= 4 && s[..2] == "{{" && s[|s| - 2..] == "}}"
    && !HasBrace(s[2..|s| - 2])
  }

  function BraceFreeRun(s: string): (n: nat)
    ensures n <= |s| && !HasBrace(s[..n]) && (n < |s| ==> IsBrace(s[n]))
  {
    if s == "" || IsBrace(s[0]) then 0
    else
      var n := BraceFreeRun(s[1..]);
      assert s[..n + 1] == [s[0]] + s[1..][..n];
      n + 1
  }

  // The length of the placeholder s begins with, or 0.
  function MatchLen(s: string): (n: nat)
    ensures n <= |s| && (n > 0 ==> IsPlaceholder(s[..n]))
    ensures n == 0 ==> forall k | 0 <= k <= |s| :: !IsPlaceholder(s[..k])
  {
    if |s| < 4 || s[..2] != "{{" then
      assert forall k | 2 <= k <= |s| :: s[..k][..2] == s[..2];
      0
    else
      var body := BraceFreeRun(s[2..]);
      assert s[2..][..body] == s[2..2 + body];
      if body + 4 <= |s| && s[body + 2] == '}' && s[body + 3] == '}' then
        assert s[..body + 4][2..body + 2] == s[2..2 + body];
        assert s[..body + 4][body + 2..] == "}}";
        body + 4
      else
        NoMatch(s, body);
        0
  }

  // The first brace of a placeholder after its opening is where it closes.
  lemma PlaceholderCloses(s: string, k: nat, body: nat)
    requires k <= |s| && IsPlaceholder(s[..k])
    requires 2 + body <= |s| && !HasBrace(s[2..2 + body]) && (2 + body < |s| ==> IsBrace(s[2 + body]))
    ensures k == body + 4 && s[body + 2] == '}' && s[body + 3] == '}'
  {
    var t := s[..k];
    assert forall i | 2 <= i < k - 2 :: t[2..k - 2][i - 2] == s[i];
    assert forall i | 2 <= i < 2 + body :: s[2..2 + body][i - 2] == s[i];
    assert t[k - 2..][0] == s[k - 2] && t[k - 2..][1] == s[k - 1];
    assert IsBrace(s[k - 2]);
  }

  lemma NoMatch(s: string, body: nat)
    requires 2 + body <= |s| && !HasBrace(s[2..2 + body]) && (2 + body < |s| ==> IsBrace(s[2 + body]))
    requires !(body + 4 <= |s| && s[body + 2] == '}' && s[body + 3] == '}')
    ensures forall k | 0 <= k <= |s| :: !IsPlaceholder(s[..k])
  {
    if k :| 0 <= k <= |s| && IsPlaceholder(s[..k]) {
      PlaceholderCloses(s, k, body);
      assert false;
    }
  }

  datatype Piece = Plain(c: char) | Slot(token: string)

  function Scan(s: string): seq<Piece>
    decreases |s|
  {
    if s == "" then []
    else if MatchLen(s) > 0 then [Slot(s[..MatchLen(s)])] + Scan(s[MatchLen(s)..])
    else [Plain(s[0])] + Scan(s[1..])
  }

  function PieceText(p: Piece): string {
    if p.Plain? then [p.c] else p.token
  }

  // The text back again.
  function Flatten(pieces: seq<Piece>): string {
    FlatMap(pieces, PieceText)
  }

  function PlainText(p: Piece): string {
    if p.Plain? then [p.c] else ""
  }

  // The text with its placeholders cut out.
  function Without(pieces: seq<Piece>): string {
    FlatMap(pieces, PlainText)
  }

  // Scanning loses nothing.
  lemma {:induction false} ScanLosesNothing(s: string)
    ensures Flatten(Scan(s)) == s
    decreases |s|
  {
    hide MatchLen, IsPlaceholder, FlatMap;
    if s == "" {
      FlatMapEmpty(PieceText);
    } else {
      var n := MatchLen(s);
      var first, rest := if n > 0 then Slot(s[..n]) else Plain(s[0]), if n > 0 then s[n..] else s[1..];
      ScanLosesNothing(rest);
      FlatMapConcat([first], Scan(rest), PieceText);
      FlatMapOne(first, PieceText);
      assert s == PieceText(first) + rest;
    }
  }

  // What it calls a slot is a placeholder.
  lemma {:induction false} SlotsArePlaceholders(s: string, token: string)
    requires Slot(token) in Scan(s)
    ensures IsPlaceholder(token)
    decreases |s|
  {
    hide MatchLen, IsPlaceholder;
    var n := MatchLen(s);
    if n > 0 && token != s[..n] {
      SlotsArePlaceholders(s[n..], token);
    } else if n == 0 {
      SlotsArePlaceholders(s[1..], token);
    }
  }

  // And it misses none: a plain character never begins a placeholder of what is left.
  lemma {:induction false} PlainStartsNoPlaceholder(s: string, k: nat)
    requires k < |Scan(s)| && Scan(s)[k].Plain?
    ensures var rest := Flatten(Scan(s)[k..]);
            rest != "" && rest[0] == Scan(s)[k].c && forall m | 0 <= m <= |rest| :: !IsPlaceholder(rest[..m])
    decreases |s|
  {
    hide IsPlaceholder, MatchLen, FlatMap;
    var n := MatchLen(s);
    var rest := if n > 0 then s[n..] else s[1..];
    if k == 0 {
      assert Scan(s)[0..] == Scan(s);
      ScanLosesNothing(s);
    } else {
      PlainStartsNoPlaceholder(rest, k - 1);
      assert Scan(s)[k..] == Scan(rest)[k - 1..];
    }
  }

  // A placeholder alone is scanned as itself.
  lemma ScanOfPlaceholder(token: string)
    requires IsPlaceholder(token)
    ensures Scan(token) == [Slot(token)]
  {
    hide HasBrace;
    var n := MatchLen(token);
    assert token[..|token|] == token;
    var body := BraceFreeRun(token[2..]);
    assert token[2..][..body] == token[2..2 + body];
    PlaceholderCloses(token, |token|, body);
    PlaceholderCloses(token, n, body);
    assert Scan(token[n..]) == [];
  }

  function AsPlain(c: char): Piece {
    Plain(c)
  }

  // The scan of a text without braces, a placeholder, and whatever follows.
  lemma {:induction false} ScanStep(before: string, body: string, rest: string)
    requires !HasBrace(before) && !HasBrace(body)
    ensures var token := "{{" + body + "}}";
            Scan(before + token + rest) == Map(before, AsPlain) + [Slot(token)] + Scan(rest)
  {
    hide MatchLen, IsPlaceholder;
    var token := "{{" + body + "}}";
    var s := before + token + rest;
    if before == "" {
      assert s == token + rest;
      MatchLenOf(body, rest);
      assert s[..|token|] == token && s[|token|..] == rest;
    } else {
      assert !IsBrace(before[0]) && forall i | 0 <= i < |before[1..]| :: before[1..][i] == before[i + 1];
      ScanStep(before[1..], body, rest);
      NoPlaceholderHere(s);
      assert s[1..] == before[1..] + token + rest;
      assert Map(before, AsPlain) == [Plain(before[0])] + Map(before[1..], AsPlain);
    }
  }

  lemma NoPlaceholderHere(s: string)
    requires s != "" && s[0] != '{'
    ensures MatchLen(s) == 0
  {
    assert |s| >= 4 ==> s[..2][0] == s[0];
  }

  lemma MatchLenOf(body: string, rest: string)
    requires !HasBrace(body)
    ensures MatchLen("{{" + body + "}}" + rest) == |body| + 4
  {
    hide HasBrace;
    var token := "{{" + body + "}}";
    var s, k, n := token + rest, |token|, MatchLen(token + rest);
    assert s[..k] == token && token[2..k - 2] == body && token[..2] == "{{" && token[k - 2..] == "}}";
    assert IsPlaceholder(s[..k]);
    var run := BraceFreeRun(s[2..]);
    assert s[2..][..run] == s[2..2 + run];
    PlaceholderCloses(s, k, run);
    PlaceholderCloses(s, n, run);
  }
}
