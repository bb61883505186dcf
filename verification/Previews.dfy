/** What the buckets of a parsed list promise, before and after live reachability checks. */
module Previews {
  import opened Wrappers
  import opened Permutations
  import opened Recipients

  ghost predicate ValidDistinct(rows: seq<Recipient>) {
    forall i, j | 0 <= i < j < |rows| && rows[i].status.Valid? && rows[j].status.Valid? ::
        rows[i].identity != rows[j].identity
  }

  ghost predicate DuplicatesHaveValid(rows: seq<Recipient>) {
    forall i | 0 <= i < |rows| && rows[i].status.Duplicate? ::
      exists j | 0 <= j < i :: rows[j].status.Valid? && rows[j].identity == rows[i].identity
  }

  // Whether a row's identity cell stands for id.
  ghost predicate StandsFor(cells: seq<string>, c: Columns, channel: string, country: string, id: string) {
    Identify(CellAt(cells, c.phone), channel, country) == Success(id)
  }

  ghost predicate SomeStandsFor(data: Table, c: Columns, channel: string, country: string, id: string) {
    exists i | 0 <= i < |data| :: StandsFor(data[i], c, channel, country, id)
  }

  ghost predicate HasValid(rows: seq<Recipient>, id: string) {
    exists i | 0 <= i < |rows| :: rows[i].status.Valid? && rows[i].identity == id
  }

  lemma BucketMeans(rows: seq<Recipient>, i: nat, data: Table, c: Columns, channel: string, country: string)
    requires AllBucketed(rows, data, c, channel, country) && i < |rows|
    ensures rows[i].status.Duplicate? <==> !rows[i].status.Invalid? && SeenBefore(rows, i)
    ensures rows[i].status.Invalid? <==> Identify(CellAt(data[i], c.phone), channel, country).Failure?
    ensures !rows[i].status.Invalid? ==> StandsFor(data[i], c, channel, country, rows[i].identity)
  {
  }

  // A row that is not invalid has its identity's first row at or before it, and that one is valid.
  lemma {:induction false} FirstIsValid(rows: seq<Recipient>, i: nat, data: Table, c: Columns, channel: string,
                                        country: string)
    returns (j: nat)
    requires AllBucketed(rows, data, c, channel, country) && i < |rows| && !rows[i].status.Invalid?
    ensures j <= i && rows[j].status.Valid? && rows[j].identity == rows[i].identity
    decreases i
  {
    hide Bucketed;
    BucketMeans(rows, i, data, c, channel, country);
    if rows[i].status.Valid? {
      j := i;
    } else {
      var k :| 0 <= k < i && rows[k].identity == rows[i].identity && !rows[k].status.Invalid?;
      j := FirstIsValid(rows, k, data, c, channel, country);
    }
  }

  // Valid rows never share an identity, every duplicate repeats an earlier valid row, and the valid
  // identities are all the identities the data stands for, each once, whatever the order of the rows.
  lemma BucketsMean(rows: seq<Recipient>, data: Table, c: Columns, channel: string, country: string)
    requires AllBucketed(rows, data, c, channel, country)
    ensures ValidDistinct(rows) && DuplicatesHaveValid(rows)
    ensures forall id :: HasValid(rows, id) <==> SomeStandsFor(data, c, channel, country, id)
  {
    hide AllBucketed, StandsFor;
    assert |rows| == |data| by {
      SameLength(rows, data, c, channel, country);
    }
    forall i, j | 0 <= i < j < |rows| && rows[i].status.Valid? && rows[j].status.Valid?
      ensures rows[i].identity != rows[j].identity
    {
      BucketMeans(rows, j, data, c, channel, country);
      assert !SeenBefore(rows, j);
    }
    forall i | 0 <= i < |rows| && rows[i].status.Duplicate?
      ensures exists j | 0 <= j < i :: rows[j].status.Valid? && rows[j].identity == rows[i].identity
    {
      var j := FirstIsValid(rows, i, data, c, channel, country);
    }
    forall id, i | 0 <= i < |data| && StandsFor(data[i], c, channel, country, id)
      ensures HasValid(rows, id)
    {
      Identified(rows, i, data, c, channel, country, id);
      var j := FirstIsValid(rows, i, data, c, channel, country);
    }
    forall i | 0 <= i < |rows| && rows[i].status.Valid?
      ensures StandsFor(data[i], c, channel, country, rows[i].identity)
    {
      BucketMeans(rows, i, data, c, channel, country);
    }
  }

  lemma SameLength(rows: seq<Recipient>, data: Table, c: Columns, channel: string, country: string)
    requires AllBucketed(rows, data, c, channel, country)
    ensures |rows| == |data|
  {
  }

  lemma Identified(rows: seq<Recipient>, i: nat, data: Table, c: Columns, channel: string, country: string, id: string)
    requires AllBucketed(rows, data, c, channel, country) && i < |data| && StandsFor(data[i], c, channel, country, id)
    ensures i < |rows| && !rows[i].status.Invalid? && rows[i].identity == id
  {
  }

  // The three buckets hold every row once.
  lemma {:induction false} CountsAddUp(rows: seq<Recipient>)
    ensures Count(rows, Valid) + Count(rows, Invalid) + Count(rows, Duplicate) == |rows|
  {
    if rows != [] {
      CountsAddUp(rows[..|rows| - 1]);
    }
  }

  // ----- reachability -----

  predicate Demoted(r: Recipient, unreachable: set<string>) {
    r.status.Valid? && r.identity in unreachable
  }

  function Demote(unreachable: set<string>, reason: string): Recipient -> Recipient {
    (r: Recipient) => if Demoted(r, unreachable) then r.(status := Invalid, reason := reason) else r
  }

  method ApplyUnreachable(result: ParseResult, unreachable: set<string>, reason: string) returns (out: ParseResult)
    ensures out.rows == Map(result.rows, Demote(unreachable, reason))
    ensures Counted(result) ==> Counted(out)
  {
    ghost var f := Demote(unreachable, reason);
    if |unreachable| == 0 {
      assert Map(result.rows, f) == result.rows;
      return result;
    }
    hide Map, Demoted, Demote, Count;
    var rows: seq<Recipient> := [];
    var valid, invalid := result.valid, result.invalid;
    MapNone(result.rows, f);
    for i := 0 to |result.rows|
      invariant rows == Map(result.rows[..i], f)
      invariant valid - result.valid == Count(rows, Valid) - Count(result.rows[..i], Valid)
      invariant invalid - result.invalid == Count(rows, Invalid) - Count(result.rows[..i], Invalid)
      invariant Count(rows, Duplicate) == Count(result.rows[..i], Duplicate)
    {
      var row := result.rows[i];
      DemoteNext(result.rows, f, i);
      DemoteOne(row, unreachable, reason);
      if Demoted(row, unreachable) {
        row := row.(status := Invalid, reason := reason);
        valid, invalid := valid - 1, invalid + 1;
      }
      rows := rows + [row];
    }
    assert result.rows[..|result.rows|] == result.rows;
    return ParseResult(rows, valid, invalid, result.duplicate);
  }

  lemma DemoteOne(r: Recipient, unreachable: set<string>, reason: string)
    ensures Demoted(r, unreachable) ==> r.status.Valid?
    ensures Demote(unreachable, reason)(r) ==
            if Demoted(r, unreachable) then r.(status := Invalid, reason := reason) else r
  {
  }

  lemma DemoteNext(rows: seq<Recipient>, f: Recipient -> Recipient, i: nat)
    requires i < |rows|
    ensures var done, row := Map(rows[..i], f), f(rows[i]);
            && Map(rows[..i + 1], f) == done + [row]
            && (forall s :: Count(done + [row], s) == Count(done, s) + if row.status == s then 1 else 0)
            && (forall s :: Count(rows[..i + 1], s) == Count(rows[..i], s) + if rows[i].status == s then 1 else 0)
  {
    hide Map, Count;
    MapNext(rows, f, i);
    CountNext(Map(rows[..i], f), f(rows[i]));
    CountNext(rows[..i], rows[i]);
    assert rows[..i + 1] == rows[..i] + [rows[i]];
  }

  lemma MapNone<A, B>(s: seq<A>, f: A -> B)
    ensures s[..0] == [] && Map(s[..0], f) == []
  {
  }

  lemma MapNext<A, B>(s: seq<A>, f: A -> B, i: nat)
    requires i < |s|
    ensures Map(s[..i + 1], f) == Map(s[..i], f) + [f(s[i])]
  {
  }

  // Each duplicate repeats an earlier row that is valid or unreachable.
  ghost predicate DuplicatesAccountedFor(rows: seq<Recipient>, unreachable: set<string>) {
    forall i | 0 <= i < |rows| && rows[i].status.Duplicate? ::
      exists j | 0 <= j < i ::
        && rows[j].identity == rows[i].identity
        && (rows[j].status.Valid? || (rows[j].status.Invalid? && rows[j].identity in unreachable))
  }

  // Afterwards the valid rows are the reachable ones, still distinct, and a duplicate still repeats an
  // earlier row: one that is valid, or was until its identity turned out unreachable.
  lemma UnreachableMeans(rows: seq<Recipient>, unreachable: set<string>, reason: string)
    requires ValidDistinct(rows) && DuplicatesHaveValid(rows)
    ensures var after := Map(rows, Demote(unreachable, reason));
            && ValidDistinct(after) && DuplicatesAccountedFor(after, unreachable)
            && (forall i | 0 <= i < |rows| :: after[i].status.Valid? <==>
                rows[i].status.Valid? && rows[i].identity !in unreachable)
  {
  }

  // Every duplicate still has an earlier valid row exactly when no duplicate's identity is unreachable.
  lemma DuplicatesKeepTheirValid(rows: seq<Recipient>, unreachable: set<string>, reason: string)
    requires DuplicatesHaveValid(rows)
    ensures DuplicatesHaveValid(Map(rows, Demote(unreachable, reason))) <==>
            forall i | 0 <= i < |rows| && rows[i].status.Duplicate? :: rows[i].identity !in unreachable
  {
  }

  // Two checks in a row keep the rows one check of both would.
  lemma ChecksCompose(rows: seq<Recipient>, first: set<string>, second: set<string>, why: string, why': string)
    ensures var both := Map(rows, Demote(first + second, why));
            var twice := Map(Map(rows, Demote(first, why)), Demote(second, why'));
            && |twice| == |both|
            && forall i | 0 <= i < |both| :: twice[i].status == both[i].status && twice[i].identity == both[i].identity
  {
  }
}
