/** What pasted and uploaded lists are read as, row by row. */
module Pastes {
  import opened Wrappers
  import opened Text
  import opened Decimals
  import opened Permutations
  import opened Phones
  import opened Recipients

  // ----- identities -----

  // A Telegram recipient is a chat id, as written; any other is a phone number of 7 to 15 digits.
  lemma IdentityByChannel(raw: string, channel: string, country: string)
    requires ValidCountryCode(country)
    ensures channel == "telegram" ==>
              (Identify(raw, channel, country) == Success(TrimSpace(raw)) <==> SomeChatID(TrimSpace(raw)))
              && (Identify(raw, channel, country).Success? ==> SomeChatID(TrimSpace(raw)))
    ensures channel != "telegram" ==>
              (Identify(raw, channel, country).Success? <==> 7 <= |DigitsOnly(raw)| <= 15)
              && (Identify(raw, channel, country).Success? ==>
                    Some(Identify(raw, channel, country).value) == NormalizePhone(raw, country))
  {
    hide TrimSpace;
    PhoneIsPlausible(raw, country);
    ChatIDIff(TrimSpace(raw));
    if raw == "" {
      TrimEmptyIffBlank(raw);
    }
  }

  // A minus sign or nothing, and digits.
  ghost predicate SomeChatID(s: string) {
    exists digits | digits != "" && AllDigits(digits) :: s == digits || s == "-" + digits
  }

  lemma ChatIDIff(s: string)
    ensures IsChatID(s) <==> SomeChatID(s)
  {
    if IsChatID(s) {
      if HasPrefix(s, "-") {
        assert s == "-" + s[1..];
      }
    }
    forall digits | digits != "" && AllDigits(digits) && (s == digits || s == "-" + digits) ensures IsChatID(s) {
      assert digits[0] != '-' && ("-" + digits)[1..] == digits;
    }
  }

  // ----- headers -----

  // A row with a phone number in it is never taken for a header, nor is the only row; a first row without a digit,
  // and with others below it, always is.
  lemma HeadersHoldNoPhone(table: Table, country: string, i: nat)
    requires ValidCountryCode(country) && table != []
    ensures |table| == 1 ==> DataOf(table) == table
    ensures i < |table[0]| && NormalizePhone(table[0][i], country).Some? ==> DataOf(table) == table
    ensures |table| > 1 && (forall k | 0 <= k < |table[0]| :: DigitsOnly(table[0][k]) == "") ==>
              DetectHeader(table) == Some(table[0]) && DataOf(table) == table[1..]
  {
    if i < |table[0]| {
      PhoneIsPlausible(table[0][i], country);
    }
  }

  // ----- line ends -----

  lemma {:induction false} NewlinesAfter(part: string, rest: string)
    requires '\r' !in part
    ensures UnixNewlines(part + rest) == part + UnixNewlines(rest)
  {
    if part == "" {
      assert part + rest == rest;
    } else {
      NewlinesAfter(part[1..], rest);
      assert (part + rest)[1..] == part[1..] + rest && part == [part[0]] + part[1..];
    }
  }

  lemma NewlineHere(sep: string, rest: string)
    requires sep in {"\r\n", "\r"} && (rest != "" ==> rest[0] != '\n')
    ensures UnixNewlines(sep + rest) == "\n" + UnixNewlines(rest)
  {
    var s := sep + rest;
    assert s[|sep|..] == rest && (|sep| == 1 && rest != "" ==> s[1] == rest[0]);
  }

  lemma {:induction false} UnixJoin(cells: seq<string>, sep: string)
    requires sep in {"\r\n", "\r"} && forall cell | cell in cells :: '\n' !in cell && '\r' !in cell
    ensures UnixNewlines(Join(cells, sep)) == Join(cells, "\n")
    ensures Join(cells, sep) != "" ==> Join(cells, sep)[0] != '\n'
  {
    hide UnixNewlines;
    NoCarriageReturn("");
    if cells != [] {
      var first, rest := cells[0], Join(cells[1..], sep);
      assert first in cells && (first != "" ==> first[0] in first);
      if |cells| == 1 {
        NoCarriageReturn(first);
      } else {
        UnixJoin(cells[1..], sep);
        NewlinesAfter(first, sep + rest);
        NewlineHere(sep, rest);
        assert Join(cells, sep) == first + (sep + rest);
        assert Join(cells, "\n") == first + ("\n" + Join(cells[1..], "\n"));
      }
    }
  }

  // Lists written with Windows or old Mac line ends are read as with plain ones.
  lemma LineEndsDoNotMatter(cells: seq<string>, sep: string)
    requires sep in {"\r\n", "\r"} && forall cell | cell in cells :: '\n' !in cell && '\r' !in cell
    ensures SplitRows(Join(cells, sep)) == SplitRows(Join(cells, "\n"))
  {
    hide UnixNewlines, Join, FlatMap, Split, DetectDelimiter;
    UnixJoin(cells, sep);
    if cells == [] {
      JoinOfNone(sep);
    } else {
      JoinHolds(cells, "\n");
    }
    NoCarriageReturn(Join(cells, "\n"));
  }

  lemma JoinOfNone(sep: string)
    ensures Join([], sep) == "" == Join([], "\n")
  {
  }

  // ----- tables -----

  // A cell that can be written between separators and read back.
  ghost predicate CleanCell(cell: string) {
    TrimSpace(cell) == cell && '\n' !in cell && '\r' !in cell && ',' !in cell && ';' !in cell && '\t' !in cell
  }

  ghost predicate CleanRow(row: seq<string>) {
    row != [] && row[0] != "" && row[|row| - 1] != "" && forall cell | cell in row :: CleanCell(cell)
  }

  function Written(row: seq<string>, sep: char): string {
    Join(row, [sep])
  }

  function Lines(table: Table, sep: char): seq<string> {
    Map(table, (row: seq<string>) => Written(row, sep))
  }

  lemma JoinHead(parts: seq<string>, sep: string)
    requires parts != [] && parts[0] != ""
    ensures Join(parts, sep) != "" && Join(parts, sep)[0] == parts[0][0]
  {
  }

  lemma {:induction false} JoinLast(parts: seq<string>, sep: string)
    requires parts != [] && parts[|parts| - 1] != ""
    ensures var s := Join(parts, sep); var last := parts[|parts| - 1];
            s != "" && s[|s| - 1] == last[|last| - 1]
  {
    if |parts| > 1 {
      JoinLast(parts[1..], sep);
      assert Join(parts, sep) == (parts[0] + sep) + Join(parts[1..], sep);
    }
  }

  lemma CleanEnds(cell: string)
    requires cell != "" && CleanCell(cell)
    ensures !IsSpace(cell[0]) && !IsSpace(cell[|cell| - 1])
  {
    hide IsSpace, Blank, TrimSpace;
    var lo, hi := TrimSpaceIsSpan(cell);
    assert |cell[lo..hi]| == |cell|;
  }

  // A line is trimmed and holds no line end, and its separator when it has several cells.
  lemma LineIsClean(row: seq<string>, sep: char)
    requires CleanRow(row) && sep in FLAT_SEPARATORS
    ensures var line := Written(row, sep);
            && line != "" && TrimSpace(line) == line && '\n' !in line && '\r' !in line
            && (forall other | other in FLAT_SEPARATORS && other != sep :: other !in line)
            && (|row| > 1 ==> sep in line)
  {
    hide TrimSpace, IsSpace, Join;
    var line := Written(row, sep);
    CleanEnds(row[0]);
    CleanEnds(row[|row| - 1]);
    JoinHead(row, [sep]);
    JoinLast(row, [sep]);
    PlainIsTrimmed(line);
    JoinHolds(row, [sep]);
  }

  lemma CellsAreRead(row: seq<string>, sep: char)
    requires CleanRow(row) && sep in FLAT_SEPARATORS
    ensures SplitColumns(Written(row, sep), Some(sep)) == row
  {
    hide TrimSpace, Join, Split;
    SplitJoin(row, sep);
    forall i | 0 <= i < |row| ensures TrimSpace(row[i]) == row[i] && sep !in row[i] {
      assert row[i] in row && CleanCell(row[i]);
    }
    assert Map(row, TrimSpace) == row;
  }

  // A table of several columns, written line by line with one separator, is read back as it was.
  lemma TablesAreRead(table: Table, sep: char)
    requires |table| > 1 && sep in FLAT_SEPARATORS && |table[0]| > 1 && forall row | row in table :: CleanRow(row)
    ensures SplitRows(Join(Lines(table, sep), "\n")) == Lines(table, sep) && TableOf(Lines(table, sep)) == table
  {
    hide TrimSpace, Join, SplitRows, SplitColumns, DetectDelimiter, Written, CleanRow;
    var lines := Lines(table, sep);
    forall i | 0 <= i < |lines|
      ensures lines[i] != "" && TrimSpace(lines[i]) == lines[i] && '\n' !in lines[i] && '\r' !in lines[i]
      ensures SplitColumns(lines[i], Some(sep)) == table[i]
    {
      assert table[i] in table;
      LineIsClean(table[i], sep);
      CellsAreRead(table[i], sep);
    }
    ListsAreRows(lines, '\n');
    assert table[0] in table;
    LineIsClean(table[0], sep);
    OnlyDelimiter(lines[0], sep);
  }

  // ----- rows -----

  lemma {:induction false} UniformWidth(data: Table, n: nat)
    requires data != [] && forall k | 0 <= k < |data| :: |data[k]| == n
    ensures Width(data) == n
  {
    if |data| > 1 {
      UniformWidth(data[..|data| - 1], n);
    }
  }

  lemma PositionsDiffer(i: nat, j: nat)
    ensures Positional(i) == Positional(j) ==> i == j
  {
    hide Itoa;
    var a, b := Itoa(i + 1), Itoa(j + 1);
    assert ("col" + a)[3..] == a && ("col" + b)[3..] == b;
    ItoaIsDecimal(i + 1);
    ItoaIsDecimal(j + 1);
  }

  // Under a key of its own, a column's cell is the row's attribute.
  lemma OwnKeyIsRead(a: map<string, string>, cells: seq<string>, keys: map<int, string>, i: int)
    requires IsAttributes(a, cells, keys) && i in keys && CellAt(cells, i) != ""
    requires forall j | j in keys && keys[j] == keys[i] :: j == i
    ensures keys[i] in a && a[keys[i]] == CellAt(cells, i)
  {
    hide CellAt;
  }

  // Without a header: the first cell is the identity, of two the second is the name, and of more the others are
  // attributes by place.
  lemma PlainRowIsRead(data: Table, lower: string -> string, c: Columns, i: nat, r: Recipient, channel: string,
                       country: string)
    requires IsColumns(None, data, lower, c) && i < |data| && IsRow(r, data[i], c, channel, country)
    requires forall k | 0 <= k < |data| :: |data[k]| == |data[i]| > 0
    ensures r.raw == TrimSpace(data[i][0])
    ensures r.name == if |data[i]| == 2 then TrimSpace(data[i][1]) else ""
    ensures |data[i]| <= 2 ==> r.attributes == map[]
    ensures forall k | 1 <= k < |data[i]| && |data[i]| > 2 && TrimSpace(data[i][k]) != "" ::
              "col" + Itoa(k + 1) in r.attributes && r.attributes["col" + Itoa(k + 1)] == TrimSpace(data[i][k])
  {
    hide TrimSpace, Itoa, Width, Identify, IsAttributes;
    var cells := data[i];
    UniformWidth(data, |cells|);
    forall k | 1 <= k < |cells| && |cells| > 2 && TrimSpace(cells[k]) != ""
      ensures Positional(k) in r.attributes && r.attributes[Positional(k)] == TrimSpace(cells[k])
    {
      forall j | j in c.attributes && c.attributes[j] == c.attributes[k] ensures j == k {
        PositionsDiffer(j, k);
      }
      OwnKeyIsRead(r.attributes, cells, c.attributes, k);
    }
    if |cells| <= 2 {
      NoKeysNothing(r.attributes, cells, c.attributes);
    }
  }

  lemma NoKeysNothing(a: map<string, string>, cells: seq<string>, keys: map<int, string>)
    requires IsAttributes(a, cells, keys) && keys == map[]
    ensures a == map[]
  {
  }

  // Under a header with one phone column and one name column: those two cells, and every other filled cell under
  // its own header.
  lemma HeadedRowIsRead(h: seq<string>, phone: nat, name: nat, data: Table, lower: string -> string, c: Columns,
                        i: nat, r: Recipient, channel: string, country: string)
    requires IsColumns(Some(h), data, lower, c) && i < |data| && IsRow(r, data[i], c, channel, country)
    requires |data[i]| == |h| && phone < |h| && name < |h| && phone != name
    requires lower(TrimSpace(h[phone])) == "phone" && lower(TrimSpace(h[name])) == "name"
    requires forall k | 0 <= k < |h| ::
               && TrimSpace(h[k]) != ""
               && (lower(TrimSpace(h[k])) in PHONE_NAMES ==> k == phone)
               && (lower(TrimSpace(h[k])) in NAME_NAMES ==> k == name)
    requires forall j, k | 0 <= j < k < |h| :: TrimSpace(h[j]) != TrimSpace(h[k])
    ensures r.raw == TrimSpace(data[i][phone]) && r.name == TrimSpace(data[i][name])
    ensures forall k | 0 <= k < |h| && k != phone && k != name && TrimSpace(data[i][k]) != "" ::
              TrimSpace(h[k]) in r.attributes && r.attributes[TrimSpace(h[k])] == TrimSpace(data[i][k])
    ensures forall key | key in r.attributes ::
              exists k | 0 <= k < |h| :: k != phone && k != name && key == TrimSpace(h[k])
  {
    hide TrimSpace, Itoa, Identify, IsAttributes, IsMostDigits;
    var cells := data[i];
    assert "phone" in PHONE_NAMES && "name" in NAME_NAMES;
    assert c.phone == phone && c.name == name;
    assert forall k | 0 <= k < |h| && k != phone && k != name ::
        k in c.attributes && c.attributes[k] == TrimSpace(h[k]);
    forall k | 0 <= k < |h| && k != phone && k != name && TrimSpace(cells[k]) != ""
      ensures TrimSpace(h[k]) in r.attributes && r.attributes[TrimSpace(h[k])] == TrimSpace(cells[k])
    {
      OwnKeyIsRead(r.attributes, cells, c.attributes, k);
    }
    forall key | key in r.attributes
      ensures exists k | 0 <= k < |h| :: k != phone && k != name && key == TrimSpace(h[k])
    {
      KeyHasColumn(r.attributes, cells, c.attributes, key);
    }
  }

  lemma KeyHasColumn(a: map<string, string>, cells: seq<string>, keys: map<int, string>, key: string)
    requires IsAttributes(a, cells, keys) && key in a
    ensures exists i | i in keys :: keys[i] == key
  {
  }
}
