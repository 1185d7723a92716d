/** Paging through a table by its primary key, with an opaque cursor. Rows come back in key order, page after page,
    each once, whatever order the database scans them in. */
module RowPaging {
  import opened Wrappers
  import opened Listings

  datatype Result<+T> = Ok(value: T) | Err(error: Error)
  datatype Error = InvalidCursor | StaleCursor | InvalidFocus

  type Key = seq<string>

  const DEFAULT_PAGE_SIZE: int := 50
  const MAX_PAGE_SIZE: int := 100

  // ----- composite keys -----

  /** Lexicographic comparison of key columns, each by the database's text order. */
  predicate LexLess(lt: (string, string) -> bool, a: Key, b: Key) {
    b != [] && (a == [] || lt(a[0], b[0]) || (a[0] == b[0] && LexLess(lt, a[1..], b[1..])))
  }

  function Lex(lt: (string, string) -> bool): (Key, Key) -> bool {
    (a, b) => LexLess(lt, a, b)
  }

  lemma {:induction false} LexIrreflexive(lt: (string, string) -> bool, a: Key)
    requires StrictOrder(lt)
    ensures !LexLess(lt, a, a)
  {
    if a == [] {
    } else {
      LexIrreflexive(lt, a[1..]);
    }
  }

  lemma {:induction false} LexTotal(lt: (string, string) -> bool, a: Key, b: Key)
    requires StrictOrder(lt)
    ensures a == b || LexLess(lt, a, b) || LexLess(lt, b, a)
  {
    if a == [] || b == [] || a[0] != b[0] {
    } else {
      LexTotal(lt, a[1..], b[1..]);
      assert a == [a[0]] + a[1..] && b == [b[0]] + b[1..];
    }
  }

  lemma {:induction false} LexTransitive(lt: (string, string) -> bool, a: Key, b: Key, c: Key)
    requires StrictOrder(lt) && LexLess(lt, a, b) && LexLess(lt, b, c)
    ensures LexLess(lt, a, c)
  {
    if a == [] || a[0] != b[0] || b[0] != c[0] {
    } else {
      LexTransitive(lt, a[1..], b[1..], c[1..]);
    }
  }

  lemma LexStrict(lt: (string, string) -> bool)
    requires StrictOrder(lt)
    ensures StrictOrder(Lex(lt))
  {
    forall a ensures !Lex(lt)(a, a) { LexIrreflexive(lt, a); }
    forall a, b ensures a == b || Lex(lt)(a, b) || Lex(lt)(b, a) { LexTotal(lt, a, b); }
    forall a, b, c | Lex(lt)(a, b) && Lex(lt)(b, c) ensures Lex(lt)(a, c) { LexTransitive(lt, a, b, c); }
  }

  // ----- the cursor -----

  type Byte = x: int | 0 <= x < 256

  datatype Cursor = Cursor(table: string, fingerprint: string, keys: Key)

  /** The JSON encoding, as the serializer promises it. */
  datatype Codec = Codec(write: Cursor -> seq<Byte>, parse: seq<Byte> -> Option<Cursor>)

  ghost predicate Faithful(codec: Codec) {
    forall c :: codec.parse(codec.write(c)) == Some(c)
  }

  function HexDigit(n: int): char
    requires 0 <= n < 16
  {
    if n < 10 then '0' + n as char else 'a' + (n - 10) as char
  }

  function DigitValue(c: char): Option<int> {
    if '0' <= c <= '9' then Some(c as int - '0' as int)
    else if 'a' <= c <= 'f' then Some(c as int - 'a' as int + 10)
    else if 'A' <= c <= 'F' then Some(c as int - 'A' as int + 10)
    else None
  }

  /** Two characters read in base 16; a leading plus sign is accepted. */
  function PairValue(a: char, b: char): (v: Option<Byte>) {
    match DigitValue(b)
    case None => None
    case Some(low) =>
      if a == '+' then Some(low)
      else match DigitValue(a) case None => None case Some(high) => Some(16 * high + low)
  }

  function Hex(bytes: seq<Byte>): (text: string)
    ensures |text| == 2 * |bytes|
  {
    if bytes == [] then "" else [HexDigit(bytes[0] / 16), HexDigit(bytes[0] % 16)] + Hex(bytes[1..])
  }

  function Unhex(text: string): Option<seq<Byte>> {
    if text == "" then Some([])
    else if |text| == 1 then None
    else
      match PairValue(text[0], text[1])
      case None => None
      case Some(byte) => match Unhex(text[2..]) case None => None case Some(rest) => Some([byte] + rest)
  }

  lemma PairRoundTrip(byte: Byte)
    ensures PairValue(HexDigit(byte / 16), HexDigit(byte % 16)) == Some(byte)
  {
  }

  lemma {:induction false} UnhexHex(bytes: seq<Byte>)
    ensures Unhex(Hex(bytes)) == Some(bytes)
  {
    if bytes == [] {
    } else {
      UnhexHex(bytes[1..]);
      PairRoundTrip(bytes[0]);
      hide PairValue, HexDigit;
      var text := Hex(bytes);
      assert text[0] == HexDigit(bytes[0] / 16) && text[1] == HexDigit(bytes[0] % 16) && text[2..] == Hex(bytes[1..]);
      assert [bytes[0]] + bytes[1..] == bytes;
    }
  }

  function Encode(codec: Codec, c: Cursor): string {
    Hex(codec.write(c))
  }

  function Decode(codec: Codec, text: string): Result<Cursor> {
    match Unhex(text)
    case None => Err(InvalidCursor)
    case Some(bytes) => match codec.parse(bytes) case None => Err(InvalidCursor) case Some(c) => Ok(c)
  }

  lemma DecodeEncode(codec: Codec, c: Cursor)
    requires Faithful(codec)
    ensures Decode(codec, Encode(codec, c)) == Ok(c)
  {
    UnhexHex(codec.write(c));
  }

  // ----- reading a page -----

  /** A table as the database holds it: its keys in scan order, and its schema. */
  datatype Table = Table(name: string, fingerprint: string, columns: nat, scan: seq<Key>, lt: (string, string) -> bool)

  ghost predicate ValidTable(t: Table) {
    StrictOrder(t.lt) && forall k :: k in t.scan ==> |k| == t.columns
  }

  datatype Page = Page(rows: seq<Key>, next: Option<string>, size: nat)

  /** Which rows a request asks for: all, those behind a cursor, or those with a value in one column. */
  datatype Filter = All | Behind(keys: Key) | Focus(holds: Key -> bool)

  predicate Wanted(t: Table, filter: Filter, k: Key) {
    match filter
    case All => true
    case Behind(keys) => LexLess(t.lt, keys, k)
    case Focus(holds) => holds(k)
  }

  function Where(t: Table, filter: Filter, scan: seq<Key>): (s: seq<Key>)
    ensures forall k :: k in s <==> k in scan && Wanted(t, filter, k)
  {
    if scan == [] then []
    else (if Wanted(t, filter, scan[0]) then [scan[0]] else []) + Where(t, filter, scan[1..])
  }

  function InOrder(t: Table): seq<Key> {
    Listing(t.scan, Lex(t.lt))
  }

  function PageSize(limit: Option<int>): (size: nat)
    ensures 1 <= size <= 100
    ensures limit.None? ==> size == 50
    ensures limit.Some? && 1 <= limit.value <= 100 ==> size == limit.value
    ensures limit.Some? && size != limit.value ==> size == if limit.value < 1 then 1 else 100
  {
    var wanted := if limit.Some? then limit.value else DEFAULT_PAGE_SIZE;
    if wanted < 1 then 1 else if wanted > MAX_PAGE_SIZE then MAX_PAGE_SIZE else wanted
  }

  function FirstOf(s: seq<Key>, n: nat): seq<Key> {
    if n <= |s| then s[..n] else s
  }

  /** The check a cursor must pass before any row is read. */
  function CheckCursor(t: Table, codec: Codec, cursor: Option<string>, focused: bool): Result<Option<Cursor>> {
    if cursor.None? then Ok(None)
    else
      match Decode(codec, cursor.value)
      case Err(e) => Err(e)
      case Ok(c) =>
        if focused then Err(InvalidFocus)
        else if c.table != t.name || |c.keys| != t.columns then Err(InvalidCursor)
        else if c.fingerprint != t.fingerprint then Err(StaleCursor)
        else Ok(Some(c))
  }

  function FilterFor(cursor: Option<Cursor>, focus: Option<Key -> bool>): Filter {
    if focus.Some? then Focus(focus.value) else if cursor.Some? then Behind(cursor.value.keys) else All
  }

  /** One page: at most `size` rows in key order, and a cursor to its last row if the query found one row more. */
  method ReadRows(t: Table, codec: Codec, limit: Option<int>, cursor: Option<string>, focus: Option<Key -> bool>)
      returns (r: Result<Page>)
    requires ValidTable(t)
    ensures CheckCursor(t, codec, cursor, focus.Some?).Err? ==>
        r == Err(CheckCursor(t, codec, cursor, focus.Some?).error)
    ensures CheckCursor(t, codec, cursor, focus.Some?).Ok? ==> r.Ok? && r.value.size == PageSize(limit)
    ensures CheckCursor(t, codec, cursor, focus.Some?).Ok? ==>
              IsPage(t, codec,
                     Listing(Where(t, FilterFor(CheckCursor(t, codec, cursor, focus.Some?).value, focus), t.scan),
                             Lex(t.lt)), r.value)
    ensures r.Ok? && focus.Some? ==> forall k :: k in r.value.rows ==> k in t.scan && focus.value(k)
    ensures r.Ok? && cursor.None? && r.value.next.None? ==>
              forall k :: k in t.scan && (focus.Some? ==> focus.value(k)) ==> k in r.value.rows
  {
    hide Listing, Where, Encode, Decode, Lex;
    var size := PageSize(limit);
    var checked := CheckCursor(t, codec, cursor, focus.Some?);
    if checked.Err? { return Err(checked.error); }
    var found := Listing(Where(t, FilterFor(checked.value, focus), t.scan), Lex(t.lt));
    var fetched := FirstOf(found, size + 1);
    var more := |fetched| > size;
    var rows := FirstOf(fetched, size);
    var next := None;
    if more {
      assert rows == found[..size];
      next := Some(Encode(codec, Cursor(t.name, t.fingerprint, rows[|rows| - 1])));
    }
    r := Ok(Page(rows, next, size));
    FirstIsIn(found, size + 1);
    FirstIsIn(fetched, size);
  }

  lemma FirstIsIn(s: seq<Key>, n: nat)
    ensures forall k :: k in FirstOf(s, n) ==> k in s
  {
  }

  /** A page of the rows found: the first `size`, with a cursor exactly when there are more. */
  predicate IsPage(t: Table, codec: Codec, found: seq<Key>, page: Page) {
    if |found| <= page.size then page.rows == found && page.next == None
    else 0 < page.size && page.rows == found[..page.size] &&
         page.next == Some(Encode(codec, Cursor(t.name, t.fingerprint, found[page.size - 1])))
  }

  // ----- following the cursors -----

  /** The rows behind row n - 1 are the ones from n on. */
  lemma BehindIsSuffix(t: Table, n: nat)
    requires ValidTable(t) && 0 < n <= |InOrder(t)|
    ensures Listing(Where(t, Behind(InOrder(t)[n - 1]), t.scan), Lex(t.lt)) == InOrder(t)[n..]
  {
    hide LexLess, Listing;
    var all, lt := InOrder(t), Lex(t.lt);
    var found := Where(t, Behind(all[n - 1]), t.scan);
    LexStrict(t.lt);
    ListingAscending(t.scan, lt);
    ListingAscending(found, lt);
    forall k ensures k in found <==> k in all[n..] {
      if k in all[n..] {
        var i :| 0 <= i < |all[n..]| && all[n..][i] == k;
        assert all[n + i] == k && lt(all[n - 1], k);
        assert all[n + i] in all;
      }
      if k in found {
        assert k in all && lt(all[n - 1], k);
        var i :| 0 <= i < |all| && all[i] == k;
        assert forall j :: 0 <= j < n - 1 ==> lt(all[j], all[n - 1]);
        assert i >= n;
        assert all[n..][i - n] == k;
      }
    }
    AscendingUnique(Listing(found, lt), all[n..], lt);
  }

  lemma WhereAll(t: Table, scan: seq<Key>)
    ensures Where(t, All, scan) == scan
  {
  }

  /** The cursor a client holds after the first n rows: none at the start. */
  predicate Holds(t: Table, codec: Codec, n: nat, cursor: Option<string>)
    requires n <= |InOrder(t)|
  {
    if n == 0 then cursor == None else cursor == Some(Encode(codec, Cursor(t.name, t.fingerprint, InOrder(t)[n - 1])))
  }

  /** With it, the next request is accepted and answers with the rows from n on. */
  lemma NextFound(t: Table, codec: Codec, n: nat, cursor: Option<string>)
    requires ValidTable(t) && Faithful(codec) && n <= |InOrder(t)| && Holds(t, codec, n, cursor)
    ensures CheckCursor(t, codec, cursor, false).Ok?
    ensures Listing(Where(t, FilterFor(CheckCursor(t, codec, cursor, false).value, None), t.scan), Lex(t.lt))
        == InOrder(t)[n..]
  {
    hide Listing, LexLess, Encode, Decode;
    if n == 0 {
      WhereAll(t, t.scan);
    } else {
      assert InOrder(t)[n - 1] in InOrder(t);
      OwnCursor(t, codec, InOrder(t)[n - 1]);
      BehindIsSuffix(t, n);
    }
  }

  lemma PageTaken(t: Table, codec: Codec, n: nat, page: Page)
    requires n <= |InOrder(t)| && IsPage(t, codec, InOrder(t)[n..], page)
    ensures var m := n + |page.rows|;
      && m <= |InOrder(t)| && InOrder(t)[..n] + page.rows == InOrder(t)[..m]
      && (page.next.None? <==> m == |InOrder(t)|)
      && (page.next.Some? ==> n < m && Holds(t, codec, m, page.next))
  {
  }

  /** Main theorem: a client that follows the cursors of an unchanged table, with any page sizes, is given every row
      exactly once, in key order. */
  method ReadAll(t: Table, codec: Codec, limits: nat -> Option<int>) returns (rows: seq<Key>)
    requires ValidTable(t) && Faithful(codec)
    ensures rows == InOrder(t)
    ensures (forall k :: k in rows <==> k in t.scan) && Ascending(rows, Lex(t.lt))
  {
    hide Listing, CheckCursor, Where, Holds, IsPage, Lex, FilterFor;
    assert Ascending(InOrder(t), Lex(t.lt)) && forall k :: k in InOrder(t) <==> k in t.scan by {
      LexStrict(t.lt);
      ListingAscending(t.scan, Lex(t.lt));
    }
    rows := [];
    var cursor, requests, done := None, 0, false;
    StartHolds(t, codec);
    while !done
      invariant |rows| <= |InOrder(t)| && rows == InOrder(t)[..|rows|]
      invariant done ==> |rows| == |InOrder(t)|
      invariant !done ==> Holds(t, codec, |rows|, cursor)
      decreases |InOrder(t)| - |rows|, !done
    {
      NextFound(t, codec, |rows|, cursor);
      var page := ReadRows(t, codec, limits(requests), cursor, None);
      PageTaken(t, codec, |rows|, page.value);
      rows := rows + page.value.rows;
      cursor, done, requests := page.value.next, page.value.next.None?, requests + 1;
    }
    assert rows == InOrder(t);
  }

  lemma StartHolds(t: Table, codec: Codec)
    ensures Holds(t, codec, 0, None)
  {
  }

  /** A cursor is accepted for the table and schema it was made for, and refused for any other. */
  lemma OwnCursor(t: Table, codec: Codec, keys: Key)
    requires ValidTable(t) && Faithful(codec) && keys in t.scan
    ensures CheckCursor(t, codec, Some(Encode(codec, Cursor(t.name, t.fingerprint, keys))), false)
        == Ok(Some(Cursor(t.name, t.fingerprint, keys)))
  {
    DecodeEncode(codec, Cursor(t.name, t.fingerprint, keys));
  }

  lemma ForeignCursor(t: Table, codec: Codec, made: Cursor)
    requires Faithful(codec)
    ensures CheckCursor(t, codec, Some(Encode(codec, made)), false) ==
            if made.table != t.name || |made.keys| != t.columns then Err(InvalidCursor)
            else if made.fingerprint != t.fingerprint then Err(StaleCursor) else Ok(Some(made))
    ensures CheckCursor(t, codec, Some(Encode(codec, made)), true) == Err(InvalidFocus)
  {
    DecodeEncode(codec, made);
  }

  /** The cursor of a focused page does not remember the focus: what it leads to are the next rows of the whole table.
      They stay in focus exactly when each of those next rows, as many as a page takes, is in focus by itself. */
  lemma FocusForgotten(t: Table, codec: Codec, holds: Key -> bool, page: Page, next: Page) returns (n: nat)
    requires ValidTable(t) && Faithful(codec) && page.next.Some?
    requires IsPage(t, codec, Listing(Where(t, Focus(holds), t.scan), Lex(t.lt)), page)
    requires IsNextPage(t, codec, page.next, next)
    ensures page.rows != [] && 0 < n <= |InOrder(t)| && InOrder(t)[n - 1] == page.rows[|page.rows| - 1]
    ensures next.rows == FirstOf(InOrder(t)[n..], next.size)
    ensures (forall k :: k in next.rows ==> holds(k)) <==>
            forall i :: n <= i < |InOrder(t)| && i < n + next.size ==> holds(InOrder(t)[i])
  {
    var found := Listing(Where(t, Focus(holds), t.scan), Lex(t.lt));
    var last := LastShown(t, codec, found, page);
    n := RowNumber(t, Focus(holds), last);
    hide *;
    NextRows(t, codec, n, next);
    FirstIn(InOrder(t), n, next.size, holds);
  }

  lemma RowNumber(t: Table, filter: Filter, row: Key) returns (n: nat)
    requires row in Listing(Where(t, filter, t.scan), Lex(t.lt))
    ensures 0 < n <= |InOrder(t)| && InOrder(t)[n - 1] == row
  {
    hide Listing, LexLess, Wanted;
    assert row in InOrder(t);
    var m :| 0 <= m < |InOrder(t)| && InOrder(t)[m] == row;
    n := m + 1;
  }

  lemma NextRows(t: Table, codec: Codec, n: nat, next: Page)
    requires ValidTable(t) && Faithful(codec) && 0 < n <= |InOrder(t)|
    requires IsNextPage(t, codec, Some(Encode(codec, Cursor(t.name, t.fingerprint, InOrder(t)[n - 1]))), next)
    ensures next.rows == FirstOf(InOrder(t)[n..], next.size)
  {
    hide Listing, LexLess, Encode, Decode, CheckCursor, IsPage, FirstOf;
    var last := InOrder(t)[n - 1];
    assert last in InOrder(t);
    OwnCursor(t, codec, last);
    BehindIsSuffix(t, n);
    RowsShown(t, codec, InOrder(t)[n..], next);
  }

  lemma LastShown(t: Table, codec: Codec, found: seq<Key>, page: Page) returns (last: Key)
    requires IsPage(t, codec, found, page) && page.next.Some?
    ensures page.rows != [] && last == page.rows[|page.rows| - 1] && last in found
    ensures page.next == Some(Encode(codec, Cursor(t.name, t.fingerprint, last)))
  {
    last := found[page.size - 1];
  }

  lemma RowsShown(t: Table, codec: Codec, found: seq<Key>, page: Page)
    requires IsPage(t, codec, found, page)
    ensures page.rows == FirstOf(found, page.size)
  {
  }

  /** What a client is given that follows this cursor without a focus. */
  predicate IsNextPage(t: Table, codec: Codec, cursor: Option<string>, next: Page) {
    var checked := CheckCursor(t, codec, cursor, false);
    checked.Ok? ==> IsPage(t, codec, Listing(Where(t, FilterFor(checked.value, None), t.scan), Lex(t.lt)), next)
  }

  lemma FirstIn(all: seq<Key>, n: nat, size: nat, holds: Key -> bool)
    requires n <= |all|
    ensures (forall k :: k in FirstOf(all[n..], size) ==> holds(k)) <==>
            forall i :: n <= i < |all| && i < n + size ==> holds(all[i])
  {
    var first := FirstOf(all[n..], size);
    assert forall i :: n <= i < |all| && i < n + size ==> first[i - n] == all[i] && first[i - n] in first;
  }

  const A: Key := ["a"]
  const B: Key := ["b"]
  const C: Key := ["c"]

  /** Three rows, the focus on the first and the last of them, one row a page: the page after the first shows the one
      out of focus. */
  lemma FocusLost(codec: Codec, lt: (string, string) -> bool)
      returns (t: Table, holds: Key -> bool, page: Page, next: Page)
    requires Faithful(codec) && StrictOrder(lt) && lt("a", "b") && lt("b", "c")
    ensures ValidTable(t) && IsPage(t, codec, Listing(Where(t, Focus(holds), t.scan), Lex(t.lt)), page)
        && page.next.Some?
    ensures IsNextPage(t, codec, page.next, next) && exists k :: k in next.rows && !holds(k)
  {
    hide Listing, LexLess, Where, Encode, Decode, CheckCursor, IsPage, IsNextPage, InFocus, Lex;
    t, holds := ThreeRows(lt), InFocus;
    ThreeRowsListed(lt);
    page := Page([A], Some(Encode(codec, CursorAt(A))), 1);
    next := Page([B], Some(Encode(codec, CursorAt(B))), 1);
    FirstOfTwo(lt, codec, A, C);
    FirstOfTwo(lt, codec, B, C);
    OwnCursor(t, codec, A);
    OutOfFocus();
    BehindA(lt, codec, next);
    assert B in next.rows;
  }

  function ThreeRows(lt: (string, string) -> bool): Table { Table("notes", "v", 1, [C, A, B], lt) }
  predicate InFocus(k: Key) { k == A || k == C }
  function CursorAt(k: Key): Cursor { Cursor("notes", "v", k) }

  lemma OutOfFocus()
    ensures !InFocus(B)
  {
  }

  lemma FirstOfTwo(lt: (string, string) -> bool, codec: Codec, first: Key, second: Key)
    ensures IsPage(ThreeRows(lt), codec, [first, second], Page([first], Some(Encode(codec, CursorAt(first))), 1))
  {
    hide Encode;
  }

  lemma BehindA(lt: (string, string) -> bool, codec: Codec, next: Page)
    requires CheckCursor(ThreeRows(lt), codec, Some(Encode(codec, CursorAt(A))), false) == Ok(Some(CursorAt(A)))
    requires IsPage(ThreeRows(lt), codec, Listing(Where(ThreeRows(lt), Behind(A), ThreeRows(lt).scan), Lex(lt)), next)
    ensures IsNextPage(ThreeRows(lt), codec, Some(Encode(codec, CursorAt(A))), next)
  {
    hide CheckCursor, IsPage, Listing, Where, Encode;
  }

  lemma ThreeRowsListed(lt: (string, string) -> bool)
    requires StrictOrder(lt) && lt("a", "b") && lt("b", "c")
    ensures var t := ThreeRows(lt);
      && ValidTable(t) && A in t.scan
      && Listing(Where(t, Focus(InFocus), t.scan), Lex(lt)) == [A, C]
      && Listing(Where(t, Behind(A), t.scan), Lex(lt)) == [B, C]
  {
    var t := ThreeRows(lt);
    assert lt("a", "c");
    forall x, y ensures Lex(lt)([x], [y]) <==> lt(x, y) { LexSingle(lt, x, y); }
    hide LexLess, Listing, Where;
    IsListing(t, Focus(InFocus), [A, C]);
    IsListing(t, Behind(A), [B, C]);
  }

  lemma LexSingle(lt: (string, string) -> bool, x: string, y: string)
    ensures LexLess(lt, [x], [y]) <==> lt(x, y)
  {
    assert LexLess(lt, [x][1..], [y][1..]) == false;
  }

  lemma IsListing(t: Table, filter: Filter, rows: seq<Key>)
    requires StrictOrder(t.lt) && Ascending(rows, Lex(t.lt))
    requires forall k :: k in rows <==> k in t.scan && Wanted(t, filter, k)
    ensures Listing(Where(t, filter, t.scan), Lex(t.lt)) == rows
  {
    hide LexLess;
    LexStrict(t.lt);
    ListingAscending(Where(t, filter, t.scan), Lex(t.lt));
    AscendingUnique(Listing(Where(t, filter, t.scan), Lex(t.lt)), rows, Lex(t.lt));
  }
}
