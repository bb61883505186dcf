/** Turning pasted or uploaded text into bucketed recipient rows. */
module Recipients {
  import opened Wrappers
  import opened Text
  import opened Permutations
  import opened Phones

  // ----- rows and columns -----

  // Windows and old Mac line ends become plain newlines.
  function UnixNewlines(s: string): string {
    if s == "" then ""
    else if s[0] == '\r' then ['\n'] + UnixNewlines(if |s| > 1 && s[1] == '\n' then s[2..] else s[1..])
    else [s[0]] + UnixNewlines(s[1..])
  }

  function Split(s: string, sep: char): (parts: seq<string>)
    ensures parts != []
  {
    if s == "" then [""]
    else
      var rest := Split(s[1..], sep);
      if s[0] == sep then [""] + rest else [[s[0]] + rest[0]] + rest[1..]
  }

  // A part's first character, or the separator after an empty part, is what splitting meets first.
  lemma JoinStarts(parts: seq<string>, sep: string)
    requires parts != []
    ensures parts[0] != "" ==> Join(parts, sep) == [parts[0][0]] + Join([parts[0][1..]] + parts[1..], sep)
    ensures parts[0] == "" && |parts| > 1 ==> Join(parts, sep) == sep + Join(parts[1..], sep)
    ensures parts == [""] ==> Join(parts, sep) == ""
  {
  }

  lemma {:induction false} SplitLosesNothing(s: string, sep: char)
    ensures Join(Split(s, sep), [sep]) == s
    ensures forall part | part in Split(s, sep) :: sep !in part
  {
    hide Join;
    var parts := Split(s, sep);
    JoinStarts(parts, [sep]);
    if s != "" {
      var rest := Split(s[1..], sep);
      SplitLosesNothing(s[1..], sep);
      assert s == [s[0]] + s[1..];
      if s[0] == sep {
        assert parts[1..] == rest;
      } else {
        assert [parts[0][1..]] + parts[1..] == [rest[0]] + rest[1..] == rest;
      }
    }
  }

  lemma {:induction false} SplitJoin(parts: seq<string>, sep: char)
    requires parts != [] && forall part | part in parts :: sep !in part
    ensures Split(Join(parts, [sep]), sep) == parts
    decreases |parts|, |parts[0]|
  {
    hide Join;
    JoinStarts(parts, [sep]);
    assert parts[0] in parts && forall part | part in parts[1..] :: part in parts;
    if parts[0] != "" {
      var first, rest := parts[0][0], [parts[0][1..]] + parts[1..];
      SplitJoin(rest, sep);
      SplitStep(first, Join(rest, [sep]), sep);
      assert parts[0] == [first] + rest[0] && parts[1..] == rest[1..];
      assert parts == [parts[0]] + parts[1..];
    } else if |parts| > 1 {
      SplitJoin(parts[1..], sep);
      SplitStep(sep, Join(parts[1..], [sep]), sep);
      assert parts == [""] + parts[1..];
    } else {
      assert parts == [""];
    }
  }

  lemma SplitStep(c: char, rest: string, sep: char)
    ensures Split([c] + rest, sep) ==
            if c == sep then [""] + Split(rest, sep) else [[c] + Split(rest, sep)[0]] + Split(rest, sep)[1..]
  {
    assert ([c] + rest)[1..] == rest;
  }

  function TrimmedPart(part: string): seq<string> {
    if TrimSpace(part) == "" then [] else [TrimSpace(part)]
  }

  const FLAT_SEPARATORS: seq<char> := [',', ';', '\t']

  function DetectDelimiter(row: string): Option<char> {
    First(FLAT_SEPARATORS, (sep: char) => sep in row)
  }

  // By lines when there are several; otherwise by whichever flat separator occurs.
  function SplitRows(raw: string): seq<string> {
    var text := UnixNewlines(raw);
    var flat := DetectDelimiter(text);
    var sep := if '\n' in text || flat.None? then '\n' else flat.value;
    FlatMap(Split(text, sep), TrimmedPart)
  }

  function SplitColumns(row: string, delim: Option<char>): (cells: seq<string>)
    ensures cells != []
  {
    if delim.None? then [TrimSpace(row)] else Map(Split(row, delim.value), TrimSpace)
  }

  type Table = seq<seq<string>>

  function TableOf(rows: seq<string>): (t: Table)
    requires rows != []
    ensures |t| == |rows|
  {
    seq(|rows|, i requires 0 <= i < |rows| => SplitColumns(rows[i], DetectDelimiter(rows[0])))
  }

  function CountDigits(s: string): nat {
    |DigitsOnly(s)|
  }

  const HEADER_DIGITS := 3

  // A first row heads a table that has more rows when each of its cells has fewer than three digits.
  function DetectHeader(table: Table): Option<seq<string>> {
    if |table| < 2 || exists i | 0 <= i < |table[0]| :: CountDigits(table[0][i]) >= HEADER_DIGITS then None
    else Some(table[0])
  }

  function DataOf(table: Table): Table {
    if DetectHeader(table).Some? then table[1..] else table
  }

  // A list written one cell per line, or on one line with one separator, is read back as written.
  lemma ListsAreRows(cells: seq<string>, sep: char)
    requires |cells| > 1 && (sep == '\n' || sep in FLAT_SEPARATORS)
    requires forall cell | cell in cells :: cell != "" && TrimSpace(cell) == cell && '\n' !in cell && '\r' !in cell
    requires sep != '\n' ==> forall cell, other | cell in cells && other in FLAT_SEPARATORS :: other !in cell
    ensures SplitRows(Join(cells, [sep])) == cells
  {
    hide TrimSpace, Join, Split, FlatMap, UnixNewlines, DetectDelimiter, TrimmedPart;
    var text := Join(cells, [sep]);
    JoinHolds(cells, [sep]);
    assert sep in text && '\r' !in text;
    NoCarriageReturn(text);
    if sep != '\n' {
      OnlyDelimiter(text, sep);
    }
    SplitJoin(cells, sep);
    KeptParts(cells);
  }

  lemma OnlyDelimiter(row: string, sep: char)
    requires sep in row && sep in FLAT_SEPARATORS
    requires forall other | other in FLAT_SEPARATORS && other != sep :: other !in row
    ensures DetectDelimiter(row) == Some(sep)
  {
    FirstIsIn(FLAT_SEPARATORS, (c: char) => c in row);
  }

  lemma {:induction false} JoinHolds(parts: seq<string>, sep: string)
    requires parts != []
    ensures forall c | c in Join(parts, sep) :: c in sep || exists part | part in parts :: c in part
    ensures |parts| > 1 ==> forall c | c in sep :: c in Join(parts, sep)
  {
    if |parts| > 1 {
      JoinHolds(parts[1..], sep);
      var rest := Join(parts[1..], sep);
      assert Join(parts, sep) == parts[0] + (sep + rest);
      forall c | c in Join(parts, sep) ensures c in sep || exists part | part in parts :: c in part {
        if c in rest && c !in sep {
          var part :| part in parts[1..] && c in part;
          assert part in parts;
        } else if c in parts[0] {
          assert parts[0] in parts;
        }
      }
    } else {
      assert parts[0] in parts;
    }
  }

  lemma {:induction false} NoCarriageReturn(s: string)
    requires '\r' !in s
    ensures UnixNewlines(s) == s
  {
    if s != "" {
      NoCarriageReturn(s[1..]);
      assert s == [s[0]] + s[1..];
    }
  }

  lemma {:induction false} KeptParts(parts: seq<string>)
    requires forall part | part in parts :: part != "" && TrimSpace(part) == part
    ensures FlatMap(parts, TrimmedPart) == parts
  {
    hide TrimSpace;
    if parts != [] {
      var init, last := parts[..|parts| - 1], parts[|parts| - 1];
      assert last in parts && forall part | part in init :: part in parts;
      KeptParts(init);
      assert parts == init + [last];
    }
  }

  // ----- which column is what -----

  const PHONE_NAMES: set<string> := {
    "phone", "phone_number", "number", "tel", "telephone", "mobile", "msisdn", "destination", "recipient", "contact",
    "chat_id"
  }
  const NAME_NAMES: set<string> := {"name", "full_name", "fullname", "display_name"}

  /** phone and name are column indices; a negative name is none. attributes names the other columns. */
  datatype Columns = Columns(phone: int, name: int, attributes: map<int, string>)

  function Positional(i: nat): string {
    "col" + Itoa(i + 1)
  }

  function AttributeKey(header: seq<string>, i: nat): string
    requires i < |header|
  {
    var key := TrimSpace(header[i]);
    if key == "" then Positional(i) else key
  }

  // The first column whose header reads as one of names, or -1.
  ghost predicate IsFirstNamed(header: seq<string>, names: set<string>, lower: string -> string, r: int) {
    && -1 <= r < |header|
    && (r >= 0 ==> lower(TrimSpace(header[r])) in names)
    && forall i | 0 <= i < |header| && (r < 0 || i < r) :: lower(TrimSpace(header[i])) !in names
  }

  // The leftmost cell of the first data row with the most digits.
  ghost predicate IsMostDigits(data: Table, r: int) {
    if data == [] || data[0] == [] then r == 0
    else
      && 0 <= r < |data[0]|
      && (forall i | 0 <= i < |data[0]| :: CountDigits(data[0][i]) <= CountDigits(data[0][r]))
      && (forall i | 0 <= i < r :: CountDigits(data[0][i]) < CountDigits(data[0][r]))
  }

  function Width(data: Table): nat {
    if data == [] then 0
    else
      var w := Width(data[..|data| - 1]);
      if |data[|data| - 1]| > w then |data[|data| - 1]| else w
  }

  ghost predicate IsColumns(header: Option<seq<string>>, data: Table, lower: string -> string, c: Columns) {
    match header
    case Some(h) =>
      && ((exists i | 0 <= i < |h| :: lower(TrimSpace(h[i])) in PHONE_NAMES) ==>
          IsFirstNamed(h, PHONE_NAMES, lower, c.phone))
      && ((forall i | 0 <= i < |h| :: lower(TrimSpace(h[i])) !in PHONE_NAMES) ==> IsMostDigits(data, c.phone))
      && IsFirstNamed(h, NAME_NAMES, lower, c.name)
      && c.attributes == map i | 0 <= i < |h| && i != c.phone && i != c.name :: AttributeKey(h, i)
    case None =>
      && c.phone == 0 && c.name == (if Width(data) == 2 then 1 else -1)
      && c.attributes == if Width(data) == 2 then map[] else map i | 1 <= i < Width(data) :: Positional(i)
  }

  method ColumnWithMostDigits(data: Table) returns (best: int)
    ensures IsMostDigits(data, best)
  {
    hide DigitsOnly;
    if |data| == 0 {
      return 0;
    }
    best := 0;
    var bestDigits: int := -1;
    for i := 0 to |data[0]|
      invariant 0 <= best && (i == 0 ==> best == 0 && bestDigits == -1)
      invariant i > 0 ==> best < i && bestDigits == CountDigits(data[0][best])
      invariant forall k | 0 <= k < i :: CountDigits(data[0][k]) <= bestDigits
      invariant forall k | 0 <= k < best && best < i :: CountDigits(data[0][k]) < bestDigits
    {
      var d := CountDigits(data[0][i]);
      if d > bestDigits {
        best, bestDigits := i, d;
      }
    }
  }

  method ResolveColumns(header: Option<seq<string>>, data: Table, lower: string -> string) returns (c: Columns)
    ensures IsColumns(header, data, lower, c)
  {
    hide TrimSpace, IsMostDigits, IsFirstNamed, AttributeKey, Positional;
    match header {
      case Some(h) =>
        var phone, name := NamedColumns(h, lower);
        FirstNamedDecides(h, PHONE_NAMES, lower, phone);
        if phone == -1 {
          phone := ColumnWithMostDigits(data);
        }
        var attributes: map<int, string> := map[];
        for i := 0 to |h|
          invariant attributes == map k | 0 <= k < i && k != phone && k != name :: AttributeKey(h, k)
        {
          if i != phone && i != name {
            attributes := attributes[i := AttributeKey(h, i)];
          }
        }
        return Columns(phone, name, attributes);
      case None =>
        c := PositionalColumns(data);
    }
  }

  method NamedColumns(h: seq<string>, lower: string -> string) returns (phone: int, name: int)
    ensures IsFirstNamed(h, PHONE_NAMES, lower, phone) && IsFirstNamed(h, NAME_NAMES, lower, name)
  {
    hide TrimSpace;
    phone, name := -1, -1;
    for i := 0 to |h|
      invariant -1 <= phone < i && -1 <= name < i
      invariant IsFirstNamed(h[..i], PHONE_NAMES, lower, phone)
      invariant IsFirstNamed(h[..i], NAME_NAMES, lower, name)
    {
      var key := lower(TrimSpace(h[i]));
      if phone == -1 && key in PHONE_NAMES {
        phone := i;
      }
      if name == -1 && key in NAME_NAMES {
        name := i;
      }
    }
    assert h[..|h|] == h;
  }

  lemma FirstNamedDecides(h: seq<string>, names: set<string>, lower: string -> string, r: int)
    requires IsFirstNamed(h, names, lower, r)
    ensures r == -1 <==> forall i | 0 <= i < |h| :: lower(TrimSpace(h[i])) !in names
  {
  }

  method PositionalColumns(data: Table) returns (c: Columns)
    ensures c.phone == 0 && c.name == (if Width(data) == 2 then 1 else -1)
    ensures c.attributes == if Width(data) == 2 then map[] else map i | 1 <= i < Width(data) :: Positional(i)
  {
    hide Positional;
    var width, name := 0, -1;
    for i := 0 to |data|
      invariant width == Width(data[..i])
    {
      assert data[..i + 1][..i] == data[..i];
      if |data[i]| > width {
        width := |data[i]|;
      }
    }
    assert data[..|data|] == data;
    var attributes: map<int, string> := map[];
    if width == 2 {
      name := 1;
    } else if width > 1 {
      for i := 1 to width
        invariant attributes == map k | 1 <= k < i :: Positional(k)
      {
        attributes := attributes[i := Positional(i)];
      }
    }
    return Columns(0, name, attributes);
  }

  // ----- one row -----

  datatype Status = Valid | Invalid | Duplicate

  datatype Recipient = Recipient(
    raw: string, name: string, attributes: map<string, string>, identity: string, status: Status, reason: string)

  const TELEGRAM := "telegram"

  function CellAt(cells: seq<string>, i: int): string {
    if 0 <= i < |cells| then TrimSpace(cells[i]) else ""
  }

  // The identity an identity cell stands for on a channel, or why it stands for none.
  function Identify(raw: string, channel: string, country: string): Result<string> {
    if raw == "" then Failure("no phone number in this row")
    else if channel == TELEGRAM then
      if IsChatID(TrimSpace(raw)) then Success(TrimSpace(raw))
      else if HasPrefix(raw, "@") then
        Failure("Telegram usernames can't be resolved to a chat — pick from an existing conversation instead")
      else Failure("must be a numeric Telegram chat id")
    else
      var id := NormalizePhone(raw, country);
      if id.Some? then Success(id.value) else Failure("could not parse a phone number")
  }

  // a holds, under each key, a non-empty cell of some column with that key, and misses no key that has one.
  ghost predicate IsAttributes(a: map<string, string>, cells: seq<string>, keys: map<int, string>) {
    && (forall k | k in a :: exists i | i in keys :: keys[i] == k && a[k] == CellAt(cells, i) != "")
    && (forall i | i in keys && CellAt(cells, i) != "" :: keys[i] in a)
  }

  // Two columns under one key never hold different texts.
  ghost predicate KeysAgree(cells: seq<string>, keys: map<int, string>) {
    forall i, j | i in keys && j in keys && keys[i] == keys[j] && CellAt(cells, i) != "" && CellAt(cells, j) != "" ::
      CellAt(cells, i) == CellAt(cells, j)
  }

  // The columns are visited in whatever order the map yields them. So the attributes of a row are
  // determined exactly when columns under one header never disagree in it.
  lemma AttributesDetermined(cells: seq<string>, keys: map<int, string>)
    ensures KeysAgree(cells, keys) <==>
            forall a, b | IsAttributes(a, cells, keys) && IsAttributes(b, cells, keys) :: a == b
  {
    hide CellAt;
    if KeysAgree(cells, keys) {
      forall a, b | IsAttributes(a, cells, keys) && IsAttributes(b, cells, keys) ensures a == b {
        SameKeys(a, b, cells, keys);
        SameKeys(b, a, cells, keys);
      }
    } else {
      var i, j :| && i in keys && j in keys && keys[i] == keys[j] && CellAt(cells, i) != "" && CellAt(cells, j) != ""
                  && CellAt(cells, i) != CellAt(cells, j);
      var a := SomeAttributes(cells, keys);
      var b, c := a[keys[i] := CellAt(cells, i)], a[keys[i] := CellAt(cells, j)];
      assert IsAttributes(b, cells, keys) && IsAttributes(c, cells, keys);
      assert b[keys[i]] != c[keys[i]];
    }
  }

  lemma SameKeys(a: map<string, string>, b: map<string, string>, cells: seq<string>, keys: map<int, string>)
    requires KeysAgree(cells, keys) && IsAttributes(a, cells, keys) && IsAttributes(b, cells, keys)
    ensures forall k | k in a :: k in b && a[k] == b[k]
  {
  }

  lemma {:induction false} SomeAttributes(cells: seq<string>, keys: map<int, string>) returns (a: map<string, string>)
    ensures IsAttributes(a, cells, keys)
    decreases |keys|
  {
    hide CellAt;
    if keys == map[] {
      return map[];
    }
    var i := AnyOf(keys.Keys);
    var rest := keys - {i};
    assert rest.Keys == keys.Keys - {i};
    a := SomeAttributes(cells, rest);
    if CellAt(cells, i) != "" {
      a := a[keys[i] := CellAt(cells, i)];
    }
  }

  // A row before deduplication.
  ghost predicate IsRow(r: Recipient, cells: seq<string>, c: Columns, channel: string, country: string) {
    && r.raw == CellAt(cells, c.phone) && r.name == (if c.name >= 0 then CellAt(cells, c.name) else "")
    && IsAttributes(r.attributes, cells, c.attributes)
    && match Identify(r.raw, channel, country)
       case Success(id) => r.status == Valid && r.identity == id && r.reason == ""
       case Failure(why) => r.status == Invalid && r.identity == "" && r.reason == why
  }

  method ParseRow(cells: seq<string>, c: Columns, channel: string, country: string) returns (r: Recipient)
    ensures IsRow(r, cells, c, channel, country)
  {
    hide CellAt, Identify, IsAttributes;
    var raw := CellAt(cells, c.phone);
    r := Recipient(raw, "", map[], "", Invalid, "");
    if c.name >= 0 {
      r := r.(name := CellAt(cells, c.name));
    }
    var attributes := ReadAttributes(cells, c.attributes);
    var id := ParseIdentity(raw, channel, country);
    match id {
      case Success(identity) => return r.(attributes := attributes, identity := identity, status := Valid);
      case Failure(why) => return r.(attributes := attributes, reason := why);
    }
  }

  method ParseIdentity(raw: string, channel: string, country: string) returns (id: Result<string>)
    ensures id == Identify(raw, channel, country)
  {
    hide TrimSpace, NormalizePhone, IsChatID;
    if raw == "" {
      return Failure("no phone number in this row");
    }
    if channel == TELEGRAM {
      var chat := NormalizeTelegramChatID(raw);
      if chat.None? {
        if HasPrefix(raw, "@") {
          return Failure("Telegram usernames can't be resolved to a chat — pick from an existing conversation instead");
        }
        return Failure("must be a numeric Telegram chat id");
      }
      return Success(chat.value);
    }
    var phone := NormalizePhone(raw, country);
    if phone.None? {
      return Failure("could not parse a phone number");
    }
    return Success(phone.value);
  }

  method ReadAttributes(cells: seq<string>, keys: map<int, string>) returns (a: map<string, string>)
    ensures IsAttributes(a, cells, keys)
  {
    hide CellAt;
    a := map[];
    var todo := keys.Keys;
    while todo != {}
      invariant todo <= keys.Keys
      invariant forall k | k in a :: exists i | i in keys :: keys[i] == k && a[k] == CellAt(cells, i) != ""
      invariant forall i | i in keys && i !in todo && CellAt(cells, i) != "" :: keys[i] in a
      decreases todo
    {
      ghost var any := AnyOf(todo);
      var i :| i in todo;
      todo := todo - {i};
      var v := CellAt(cells, i);
      if v != "" {
        a := a[keys[i] := v];
      }
    }
  }

  // ----- bucketing -----

  datatype ParseResult = ParseResult(rows: seq<Recipient>, valid: int, invalid: int, duplicate: int)

  const DUPLICATE_REASON := "duplicate of an earlier row in this list"

  function Count(rows: seq<Recipient>, status: Status): nat {
    if rows == [] then 0
    else Count(rows[..|rows| - 1], status) + if rows[|rows| - 1].status == status then 1 else 0
  }

  // The counters are what a recount gives.
  ghost predicate Counted(r: ParseResult) {
    r.valid == Count(r.rows, Valid) && r.invalid == Count(r.rows, Invalid) && r.duplicate == Count(r.rows, Duplicate)
  }

  ghost predicate SeenBefore(rows: seq<Recipient>, i: nat)
    requires i < |rows|
  {
    exists j | 0 <= j < i :: rows[j].identity == rows[i].identity && !rows[j].status.Invalid?
  }

  // Row i is what its cells parse to, marked a duplicate when an earlier row already has its identity.
  ghost predicate Bucketed(rows: seq<Recipient>, i: nat, cells: seq<string>, c: Columns, channel: string,
                           country: string)
    requires i < |rows|
  {
    if !rows[i].status.Invalid? && SeenBefore(rows, i) then
      rows[i].status.Duplicate? && rows[i].reason == DUPLICATE_REASON
      && IsRow(rows[i].(status := Valid, reason := ""), cells, c, channel, country)
    else IsRow(rows[i], cells, c, channel, country)
  }

  // Every row of a parsed list, bucketed against the rows before it.
  ghost predicate AllBucketed(rows: seq<Recipient>, data: Table, c: Columns, channel: string, country: string) {
    |rows| == |data| && forall i | 0 <= i < |rows| :: Bucketed(rows, i, data[i], c, channel, country)
  }

  method ParseRecipients(raw: string, channel: string, country: string, lower: string -> string)
    returns (out: ParseResult)
    ensures Counted(out)
    ensures SplitRows(raw) == [] ==> out.rows == []
    ensures SplitRows(raw) != [] ==>
              var table := TableOf(SplitRows(raw));
              exists c | IsColumns(DetectHeader(table), DataOf(table), lower, c) ::
                AllBucketed(out.rows, DataOf(table), c, channel, country)
  {
    hide SplitRows, TableOf, DetectHeader, DataOf, IsColumns, IsRow, Count, Bucketed;
    var rows := SplitRows(raw);
    out := ParseResult([], 0, 0, 0);
    NothingCounted();
    if |rows| == 0 {
      return;
    }
    var table := TableOf(rows);
    var data := DataOf(table);
    var columns := ResolveColumns(DetectHeader(table), data, lower);
    var seen: set<string> := {};
    for k := 0 to |data|
      invariant |out.rows| == k && Counted(out)
      invariant forall id :: id in seen <==> Taken(out.rows, id)
      invariant forall i | 0 <= i < k :: Bucketed(out.rows, i, data[i], columns, channel, country)
    {
      var row := ParseRow(data[k], columns, channel, country);
      RowStatus(row, data[k], columns, channel, country);
      BucketsExtend(out.rows, row, row.identity in seen, data, columns, channel, country);
      if row.status.Valid? {
        if row.identity in seen {
          row := row.(status := Duplicate, reason := DUPLICATE_REASON);
        } else {
          seen := seen + {row.identity};
        }
      }
      TakenNext(out.rows, row);
      CountNext(out.rows, row);
      match row.status {
        case Valid => out := out.(valid := out.valid + 1);
        case Duplicate => out := out.(duplicate := out.duplicate + 1);
        case Invalid => out := out.(invalid := out.invalid + 1);
      }
      out := out.(rows := out.rows + [row]);
    }
    assert AllBucketed(out.rows, data, columns, channel, country);
  }

  // Some row that is not invalid already has the identity.
  ghost predicate Taken(rows: seq<Recipient>, id: string) {
    exists j | 0 <= j < |rows| :: rows[j].identity == id && !rows[j].status.Invalid?
  }

  lemma TakenNext(rows: seq<Recipient>, row: Recipient)
    ensures forall id :: Taken(rows + [row], id) <==> Taken(rows, id) || (row.identity == id && !row.status.Invalid?)
  {
    var more := rows + [row];
    assert more[|rows|] == row && forall j | 0 <= j < |rows| :: more[j] == rows[j];
  }

  lemma NothingCounted()
    ensures Counted(ParseResult([], 0, 0, 0))
  {
  }

  lemma CountNext(rows: seq<Recipient>, row: Recipient)
    ensures forall status :: Count(rows + [row], status) == Count(rows, status) + if row.status == status then 1 else 0
  {
    assert (rows + [row])[..|rows|] == rows;
  }

  lemma RowStatus(r: Recipient, cells: seq<string>, c: Columns, channel: string, country: string)
    requires IsRow(r, cells, c, channel, country)
    ensures r.status.Valid? ==> r.reason == ""
    ensures !r.status.Duplicate?
  {
  }

  // A parsed row goes in as it is, or as a duplicate when its identity is taken; earlier rows stand.
  lemma BucketsExtend(rows: seq<Recipient>, row: Recipient, taken: bool, data: Table, c: Columns, channel: string,
                      country: string)
    requires |rows| < |data| && forall i | 0 <= i < |rows| :: Bucketed(rows, i, data[i], c, channel, country)
    requires IsRow(row, data[|rows|], c, channel, country) && (taken <==> Taken(rows, row.identity))
    ensures var stored :=
              if row.status.Valid? && taken then row.(status := Duplicate, reason := DUPLICATE_REASON) else row;
            forall i | 0 <= i <= |rows| :: Bucketed(rows + [stored], i, data[i], c, channel, country)
  {
    hide IsRow;
    var stored := if row.status.Valid? && taken then row.(status := Duplicate, reason := DUPLICATE_REASON) else row;
    var more := rows + [stored];
    RowStatus(row, data[|rows|], c, channel, country);
    assert row.status.Valid? ==> stored.(status := Valid, reason := "") == row;
    forall i | 0 <= i <= |rows| ensures Bucketed(more, i, data[i], c, channel, country) {
      assert forall j | 0 <= j < |rows| :: more[j] == rows[j];
      if i < |rows| {
        assert Bucketed(rows, i, data[i], c, channel, country);
        assert SeenBefore(more, i) <==> SeenBefore(rows, i);
      } else {
        assert SeenBefore(more, i) <==> Taken(rows, row.identity);
      }
    }
  }
}
