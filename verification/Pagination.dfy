/** Cursor pagination: a cursor is the base64 of "offset|limit", and a listing
    fetches one row more than the page to see whether another page follows.
    Base64 is taken as an invertible wrapping of the text. */
module Pagination {
  import opened Text
  import opened Wrappers

  const DEFAULT_LIMIT := 25
  const MAX_LIMIT := 100
  const MAX_INT := 0x7FFF_FFFF_FFFF_FFFF

  datatype Page = Page(offset: int, limit: int)

  /** Go's addition of two 64-bit numbers wraps around. */
  function Plus(a: int, b: int): int {
    if a + b > MAX_INT then a + b - 2 * MAX_INT - 2
    else if a + b < -MAX_INT - 1 then a + b + 2 * MAX_INT + 2
    else a + b
  }

  predicate Digit(c: char) {
    '0' <= c <= '9'
  }

  function DigitChar(d: nat): char
    requires d < 10
  {
    '0' + d as char
  }

  /** A number as %d prints it. */
  function Decimal(n: nat): string
    decreases n
  {
    if n < 10 then [DigitChar(n)] else Decimal(n / 10) + [DigitChar(n % 10)]
  }

  function Printed(n: int): string {
    if n < 0 then "-" + Decimal(-n) else Decimal(n)
  }

  function DigitsValue(s: string): Option<nat>
    decreases |s|
  {
    if s == [] then Some(0)
    else
      var init, last := DigitsValue(s[..|s| - 1]), s[|s| - 1];
      if init.Some? && Digit(last) then Some(10 * init.value + (last as int - '0' as int)) else None
  }

  /** strconv.Atoi: an optional sign, digits, and the 64-bit range. */
  function Atoi(s: string): Option<int> {
    var signed := s != [] && (s[0] == '-' || s[0] == '+');
    var digits := if signed then s[1..] else s;
    var n := DigitsValue(digits);
    if digits == [] || n.None? then None
    else
      var value: int := if signed && s[0] == '-' then -(n.value as int) else n.value;
      if -MAX_INT - 1 <= value <= MAX_INT then Some(value) else None
  }

  /** A cursor as a client presents it: none, base64 of a text, or not base64. */
  datatype Cursor = NoCursor | Encoded(raw: string) | Undecodable

  function Clamp(n: int): int {
    if n <= 0 then DEFAULT_LIMIT else if n > MAX_LIMIT then MAX_LIMIT else n
  }

  /** None is the malformed-cursor error. */
  function Parse(cursor: Cursor, limit: int): Option<Page> {
    match cursor
    case NoCursor => Some(Page(0, Clamp(limit)))
    case Undecodable => None
    case Encoded(raw) =>
      var bar := FirstBar(raw);
      if bar == |raw| then None
      else
        var off, lim := Atoi(raw[..bar]), Atoi(raw[bar + 1..]);
        if off.None? || off.value < 0 || lim.None? || lim.value <= 0 then None
        else Some(Page(off.value, Clamp(lim.value)))
  }

  function NextCursor(p: Page, returned: int): Cursor {
    if returned < p.limit then NoCursor
    else Encoded(Printed(Plus(p.offset, p.limit)) + "|" + Printed(p.limit))
  }

  // ---- Parse inverts NextCursor ----

  lemma {:induction false} DecimalDigits(n: nat)
    ensures Decimal(n) != [] && forall c | c in Decimal(n) :: Digit(c)
    decreases n
  {
    if n >= 10 { DecimalDigits(n / 10); }
  }

  lemma {:induction false} DecimalValue(n: nat)
    ensures DigitsValue(Decimal(n)) == Some(n)
    decreases n
  {
    var s := Decimal(n);
    if n < 10 {
      assert s[..|s| - 1] == [];
    } else {
      DecimalValue(n / 10);
      assert s[..|s| - 1] == Decimal(n / 10);
    }
  }

  lemma AtoiPlain(s: string, m: nat)
    requires s != [] && (forall c | c in s :: Digit(c)) && DigitsValue(s) == Some(m) && m <= MAX_INT
    ensures Atoi(s) == Some(m) && '|' !in s
  {
    assert s[0] in s;
  }

  lemma AtoiNegative(s: string, m: nat)
    requires s != [] && (forall c | c in s :: Digit(c)) && DigitsValue(s) == Some(m) && m <= MAX_INT + 1
    ensures Atoi("-" + s) == Some(-(m as int)) && '|' !in "-" + s
  {
    assert ("-" + s)[1..] == s;
  }

  lemma AtoiOfPrinted(n: int)
    requires -MAX_INT - 1 <= n <= MAX_INT
    ensures Atoi(Printed(n)) == Some(n) && '|' !in Printed(n)
  {
    var m := if n < 0 then -n else n;
    DecimalDigits(m);
    DecimalValue(m);
    if n < 0 { AtoiNegative(Decimal(m), m); } else { AtoiPlain(Decimal(m), m); }
  }

  lemma ParsePair(a: int, b: int, limit: int)
    requires -MAX_INT - 1 <= a <= MAX_INT && -MAX_INT - 1 <= b <= MAX_INT
    ensures Parse(Encoded(Printed(a) + "|" + Printed(b)), limit) ==
            if a < 0 || b <= 0 then None else Some(Page(a, Clamp(b)))
  {
    var raw := Printed(a) + "|" + Printed(b);
    AtoiOfPrinted(a);
    AtoiOfPrinted(b);
    FirstBarOf(Printed(a), Printed(b));
    assert raw[..|Printed(a)|] == Printed(a);
    assert raw[|Printed(a)| + 1..] == Printed(b);
  }

  predicate PageOk(p: Page) {
    0 <= p.offset <= MAX_INT && 1 <= p.limit <= MAX_LIMIT
  }

  /** The cursor of a full page parses back to the following page, whatever limit
      the client repeats beside it, exactly when that page's offset is still a
      64-bit number; past it the cursor is refused as malformed. */
  lemma ParseInvertsNextCursor(p: Page, returned: int, limit: int)
    requires PageOk(p) && returned >= p.limit
    ensures Parse(NextCursor(p, returned), limit) ==
            if p.offset + p.limit <= MAX_INT then Some(Page(p.offset + p.limit, p.limit)) else None
  {
    ParsePair(Plus(p.offset, p.limit), p.limit, limit);
  }

  /** Whatever the client sends, an accepted page is within bounds. */
  lemma ParsedPageOk(cursor: Cursor, limit: int)
    ensures Parse(cursor, limit).Some? ==> PageOk(Parse(cursor, limit).value)
  {
  }

  // ---- following cursors ----

  /** LIMIT n OFFSET o over a fixed ordered list. */
  function Window<T>(all: seq<T>, offset: nat, n: nat): seq<T> {
    if offset >= |all| then []
    else if offset + n >= |all| then all[offset..]
    else all[offset..offset + n]
  }

  datatype Listing<T> = Listing(items: seq<T>, cursor: Cursor)

  /** One listing: a row more than the page is fetched, and dropped again. */
  function List<T>(all: seq<T>, p: Page): Listing<T>
    requires PageOk(p)
  {
    var out := Window(all, p.offset, p.limit + 1);
    if |out| > p.limit then Listing(out[..p.limit], NextCursor(p, p.limit)) else Listing(out, NoCursor)
  }

  lemma ListMeans<T>(all: seq<T>, p: Page)
    requires PageOk(p)
    ensures List(all, p).items == Window(all, p.offset, p.limit)
    ensures List(all, p).cursor == if p.offset + p.limit < |all| then NextCursor(p, p.limit) else NoCursor
  {
  }

  /** A client following cursors from a page on, always sending `limit` along. */
  function Follow<T>(all: seq<T>, p: Page, limit: int): (pages: seq<seq<T>>)
    requires PageOk(p) && |all| <= MAX_INT
    decreases if p.offset < |all| then |all| - p.offset else 0
  {
    var page := List(all, p);
    ListMeans(all, p);
    if page.cursor.NoCursor? then [page.items]
    else
      ParseInvertsNextCursor(p, p.limit, limit);
      [page.items] + Follow(all, Parse(page.cursor, limit).value, limit)
  }

  function Flatten<T>(pages: seq<seq<T>>): seq<T> {
    if pages == [] then [] else pages[0] + Flatten(pages[1..])
  }

  /** The reference: the list from an offset on, cut into chunks. */
  ghost function Chunks<T>(all: seq<T>, limit: nat): seq<seq<T>>
    requires limit >= 1
    decreases |all|
  {
    if |all| <= limit then [all] else [all[..limit]] + Chunks(all[limit..], limit)
  }

  lemma FollowStops<T>(all: seq<T>, p: Page, limit: int)
    requires PageOk(p) && |all| <= MAX_INT && p.offset <= |all| <= p.offset + p.limit
    ensures Follow(all, p, limit) == [all[p.offset..]]
  {
    ListMeans(all, p);
    assert List(all, p).items == all[p.offset..];
  }

  lemma FollowGoesOn<T>(all: seq<T>, p: Page, limit: int)
    requires PageOk(p) && |all| <= MAX_INT && p.offset + p.limit < |all|
    ensures Follow(all, p, limit) ==
            [all[p.offset..p.offset + p.limit]] + Follow(all, Page(p.offset + p.limit, p.limit), limit)
  {
    ListMeans(all, p);
    ParseInvertsNextCursor(p, p.limit, limit);
  }

  lemma ChunksGoOn<T>(all: seq<T>, offset: nat, limit: nat)
    requires limit >= 1 && offset + limit < |all|
    ensures Chunks(all[offset..], limit) == [all[offset..offset + limit]] + Chunks(all[offset + limit..], limit)
  {
    assert all[offset..][..limit] == all[offset..offset + limit];
    assert all[offset..][limit..] == all[offset + limit..];
  }

  ghost predicate SameAsChunks<T>(all: seq<T>, p: Page, limit: int)
    requires PageOk(p) && |all| <= MAX_INT && p.offset <= |all|
  {
    Follow(all, p, limit) == Chunks(all[p.offset..], p.limit)
  }

  lemma LastPageIsChunk<T>(all: seq<T>, p: Page, limit: int)
    requires PageOk(p) && |all| <= MAX_INT && p.offset <= |all| <= p.offset + p.limit
    ensures SameAsChunks(all, p, limit)
  {
    FollowStops(all, p, limit);
  }

  lemma EarlierPageIsChunk<T>(all: seq<T>, p: Page, limit: int)
    requires PageOk(p) && |all| <= MAX_INT && p.offset + p.limit < |all|
    requires SameAsChunks(all, Page(p.offset + p.limit, p.limit), limit)
    ensures SameAsChunks(all, p, limit)
  {
    FollowGoesOn(all, p, limit);
    ChunksGoOn(all, p.offset, p.limit);
  }

  lemma {:induction false} FollowIsChunks<T>(all: seq<T>, p: Page, limit: int, n: nat)
    requires PageOk(p) && |all| <= MAX_INT && p.offset <= |all| && n == |all| - p.offset
    ensures SameAsChunks(all, p, limit)
    decreases n
  {
    if n <= p.limit {
      LastPageIsChunk(all, p, limit);
    } else {
      FollowIsChunks(all, Page(p.offset + p.limit, p.limit), limit, n - p.limit);
      EarlierPageIsChunk(all, p, limit);
    }
  }

  ghost predicate FullButLast<T>(pages: seq<seq<T>>, limit: int) {
    && |pages| >= 1 && |pages[|pages| - 1]| <= limit
    && forall i | 0 <= i < |pages| - 1 :: |pages[i]| == limit
  }

  lemma FullCons<T>(first: seq<T>, rest: seq<seq<T>>, limit: int)
    requires FullButLast(rest, limit) && |first| == limit
    ensures FullButLast([first] + rest, limit)
  {
    var pages := [first] + rest;
    forall i | 0 <= i < |pages| - 1 ensures |pages[i]| == limit {
      if i > 0 { assert pages[i] == rest[i - 1]; }
    }
  }

  /** Every item once, in order, in full pages but for the last, which is empty
      only when there is nothing to show. */
  ghost predicate Covers<T>(pages: seq<seq<T>>, all: seq<T>, limit: int) {
    && Flatten(pages) == all
    && FullButLast(pages, limit)
    && (all != [] ==> pages[|pages| - 1] != [])
  }

  lemma {:induction false} ChunksCover<T>(all: seq<T>, limit: nat)
    requires limit >= 1
    ensures Covers(Chunks(all, limit), all, limit)
    decreases |all|
  {
    if |all| <= limit {
      assert [all][1..] == [];
    } else {
      ChunksCover(all[limit..], limit);
      var rest := Chunks(all[limit..], limit);
      FullCons(all[..limit], rest, limit);
      assert ([all[..limit]] + rest)[1..] == rest;
      assert all == all[..limit] + all[limit..];
    }
  }

  /** Following cursors over a fixed list, of any length a 64-bit offset can
      address, visits every row once and stops. */
  lemma CursorsCoverTheList<T>(all: seq<T>, limit: int)
    requires |all| <= MAX_INT
    ensures Covers(Follow(all, Page(0, Clamp(limit)), limit), all, Clamp(limit))
  {
    FollowIsChunks(all, Page(0, Clamp(limit)), limit, |all|);
    assert all[0..] == all;
    ChunksCover(all, Clamp(limit));
  }
}
