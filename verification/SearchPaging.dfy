/**
 * Paging through search results. A cursor is the offset of the next page in
 * decimal behind "o:", as base64url; a page is cut from the authorized
 * candidates, which are the same for every page of one query.
 */
module SearchPaging {
  import opened Base64Url
  import opened Common
  import opened Strings

  const SEARCH_QUERY_MIN_LENGTH := 1
  const SEARCH_QUERY_MAX_LENGTH := 500
  const SEARCH_MAX_PAGE_SIZE := 100
  /** The largest integer a number holds exactly. */
  const MAX_SAFE_INTEGER := 9_007_199_254_740_991

  datatype Error = ValidationFailed

  // ------------------------------------------------------------------ cursors

  function AsciiByte(c: char): Byte
    requires c as int < 128
  {
    c as int
  }

  predicate Ascii(s: string) {
    forall i :: 0 <= i < |s| ==> s[i] as int < 128
  }

  function Utf8(s: string): Bytes
    requires Ascii(s)
  {
    seq(|s|, i requires 0 <= i < |s| => AsciiByte(s[i]))
  }

  /** The text of bytes; a byte above 127 stands for some character that is no digit. */
  function Utf8Text(b: Bytes): string {
    seq(|b|, i requires 0 <= i < |b| => b[i] as char)
  }

  function CursorText(offset: nat): string {
    "o:" + Decimal(offset)
  }

  lemma CursorTextIsAscii(offset: nat)
    ensures Ascii(CursorText(offset))
  {
    DecimalRoundTrip(offset);
    var s := CursorText(offset);
    forall i | 0 <= i < |s|
      ensures s[i] as int < 128
    {
      assert i >= 2 ==> IsDigit(Decimal(offset)[i - 2]);
    }
  }

  function EncodeCursor(offset: nat): string {
    CursorTextIsAscii(offset);
    Encode(Utf8(CursorText(offset)))
  }

  function DecodeCursor(cursor: string): Result<nat, Error> {
    var decoded := Utf8Text(Decode(cursor));
    if |decoded| > 2 && decoded[..2] == "o:" && AllDigits(decoded[2..]) then
      if NumberOf(decoded[2..]) <= MAX_SAFE_INTEGER then Ok(NumberOf(decoded[2..])) else Err(ValidationFailed)
    else Err(ValidationFailed)
  }

  /** A cursor decodes to the offset it was made from, as long as numbers hold the offset exactly. */
  lemma DecodeEncodeCursor(offset: nat)
    ensures DecodeCursor(EncodeCursor(offset)) == if offset <= MAX_SAFE_INTEGER then Ok(offset) else Err(ValidationFailed)
  {
    hide Encode, Decode, Decimal, NumberOf;
    CursorTextIsAscii(offset);
    DecimalRoundTrip(offset);
    var s := CursorText(offset);
    DecodeEncode(Utf8(s));
    assert Utf8Text(Utf8(s)) == s;
    assert s[2..] == Decimal(offset);
  }

  // -------------------------------------------------------------------- pages

  datatype Page<T> = Page(results: seq<T>, nextCursor: Option<string>)

  predicate ValidQuery(query: string) {
    SEARCH_QUERY_MIN_LENGTH <= |query| <= SEARCH_QUERY_MAX_LENGTH
  }

  /** The candidates the requester may see, in the index's order. */
  function Authorized<T>(candidates: seq<T>, permitted: T -> bool): seq<T> {
    if candidates == [] then []
    else Authorized(Front(candidates), permitted) + if permitted(Last(candidates)) then [Last(candidates)] else []
  }

  /** `s.slice(from, to)`: bounds beyond the end are the end. */
  function Slice<T>(s: seq<T>, from: nat, to: nat): seq<T>
    requires from <= to
  {
    s[if from < |s| then from else |s|..if to < |s| then to else |s|]
  }

  function PageAt<T>(authorized: seq<T>, offset: nat): Page<T> {
    Page(Slice(authorized, offset, offset + SEARCH_MAX_PAGE_SIZE),
         if |authorized| > offset + SEARCH_MAX_PAGE_SIZE then Some(EncodeCursor(offset + SEARCH_MAX_PAGE_SIZE)) else None)
  }

  lemma PageHolds<T>(all: seq<T>, offset: nat)
    ensures var page := PageAt(all, offset);
            && page.results == (if offset >= |all| then [] else if offset + 100 >= |all| then all[offset..] else all[offset..offset + 100])
            && (page.nextCursor.Some? <==> offset + 100 < |all|)
            && (page.nextCursor.Some? ==> page.nextCursor == Some(EncodeCursor(offset + 100)))
  {
    hide EncodeCursor;
  }

  /** One page of the authorized candidates, in the index's order; a bad query or cursor is refused. */
  method Search<T>(query: string, cursor: Option<string>, candidates: seq<T>, permitted: T -> bool)
    returns (page: Result<Page<T>, Error>)
    ensures page.Err? <==> !(1 <= |query| <= 500) || (cursor.Some? && DecodeCursor(cursor.value).Err?)
    ensures page.Ok? ==>
              page.value == PageAt(Authorized(candidates, permitted),
                                   if cursor.None? then 0 else DecodeCursor(cursor.value).value)
    // The page holds what stands from the offset on, a hundred at most, and tells of more if there is more.
    ensures page.Ok? ==>
              var all, offset := Authorized(candidates, permitted), if cursor.None? then 0 else DecodeCursor(cursor.value).value;
              && page.value.results ==
                 (if offset >= |all| then [] else if offset + 100 >= |all| then all[offset..] else all[offset..offset + 100])
              && (page.value.nextCursor.Some? <==> offset + 100 < |all|)
              && (page.value.nextCursor.Some? ==> page.value.nextCursor == Some(EncodeCursor(offset + 100)))
  {
    hide EncodeCursor, DecodeCursor, Slice;
    if !ValidQuery(query) {
      return Err(ValidationFailed);
    }
    var offset: nat := 0;
    if cursor.Some? {
      var decoded := DecodeCursor(cursor.value);
      if decoded.Err? {
        return Err(ValidationFailed);
      }
      offset := decoded.value;
    }
    var authorized := [];
    for i := 0 to |candidates|
      invariant authorized == Authorized(candidates[..i], permitted)
    {
      assert Front(candidates[..i + 1]) == candidates[..i] && Last(candidates[..i + 1]) == candidates[i];
      if permitted(candidates[i]) {
        authorized := authorized + [candidates[i]];
      }
    }
    assert candidates[..|candidates|] == candidates;
    var nextOffset := offset + SEARCH_MAX_PAGE_SIZE;
    var hasMore := |authorized| > nextOffset;
    page := Ok(Page(Slice(authorized, offset, nextOffset), if hasMore then Some(EncodeCursor(nextOffset)) else None));
    assert page.value == PageAt(authorized, offset);
    PageHolds(authorized, offset);
  }

  // ---------------------------------------------------------- all the pages

  /** The pages a reader gets from `cursor` on, following cursors while there are any, at most so many. */
  function Follow<T>(authorized: seq<T>, cursor: Option<string>, most: nat): seq<Page<T>>
    decreases most
  {
    if most == 0 then []
    else
      var offset := if cursor.None? then Ok(0) else DecodeCursor(cursor.value);
      if offset.Err? then []
      else
        var page := PageAt(authorized, offset.value);
        [page] + if page.nextCursor.None? then [] else Follow(authorized, page.nextCursor, most - 1)
  }

  function Results<T>(pages: seq<Page<T>>): seq<T> {
    if pages == [] then [] else pages[0].results + Results(pages[1..])
  }

  /** `max(1, ceil(n / 100))`. */
  function PageCount(n: nat): nat {
    if n == 0 then 1 else (n + SEARCH_MAX_PAGE_SIZE - 1) / SEARCH_MAX_PAGE_SIZE
  }

  /** There is another page exactly when not all pages are read. */
  lemma PageCountStep(n: nat, read: nat)
    requires read < PageCount(n)
    ensures n > (read + 1) * SEARCH_MAX_PAGE_SIZE <==> read + 1 < PageCount(n)
    ensures read * SEARCH_MAX_PAGE_SIZE <= n
  {
  }

  lemma FollowOnce<T>(authorized: seq<T>, offset: nat, cursor: Option<string>, most: nat)
    requires offset <= |authorized| <= MAX_SAFE_INTEGER && most > 0
    requires (cursor == None && offset == 0) || cursor == Some(EncodeCursor(offset))
    ensures var page, pages := PageAt(authorized, offset), Follow(authorized, cursor, most);
            if page.nextCursor.None? then pages == [page] && Results(pages) == authorized[offset..]
            else
              var rest := Follow(authorized, page.nextCursor, most - 1);
              && offset + SEARCH_MAX_PAGE_SIZE < |authorized|
              && pages == [page] + rest
              && Results(pages) == authorized[offset..offset + SEARCH_MAX_PAGE_SIZE] + Results(rest)
  {
    hide EncodeCursor, DecodeCursor;
    DecodeEncodeCursor(offset);
    var page, pages := PageAt(authorized, offset), Follow(authorized, cursor, most);
    assert pages[0] == page;
    if page.nextCursor.None? {
      assert Results(pages[1..]) == [];
    } else {
      assert pages[1..] == Follow(authorized, page.nextCursor, most - 1);
    }
  }

  lemma {:induction false} FollowFrom<T>(authorized: seq<T>, read: nat, cursor: Option<string>, most: nat)
    requires |authorized| <= MAX_SAFE_INTEGER
    requires var offset := read * SEARCH_MAX_PAGE_SIZE;
             if read == 0 then cursor.None? else cursor == Some(EncodeCursor(offset))
    requires read < PageCount(|authorized|) <= read + most
    ensures var pages := Follow(authorized, cursor, most);
            && read + |pages| == PageCount(|authorized|)
            && Last(pages).nextCursor.None?
            && read * SEARCH_MAX_PAGE_SIZE <= |authorized|
            && Results(pages) == authorized[read * SEARCH_MAX_PAGE_SIZE..]
            && (forall i :: 0 <= i < |pages| ==> |pages[i].results| <= SEARCH_MAX_PAGE_SIZE)
    decreases most
  {
    hide EncodeCursor, DecodeCursor, PageCount, Follow, Results;
    var offset := read * SEARCH_MAX_PAGE_SIZE;
    PageCountStep(|authorized|, read);
    FollowOnce(authorized, offset, cursor, most);
    var page := PageAt(authorized, offset);
    if page.nextCursor.Some? {
      FollowFrom(authorized, read + 1, page.nextCursor, most - 1);
      assert authorized[offset..] == authorized[offset..offset + SEARCH_MAX_PAGE_SIZE] + authorized[offset + SEARCH_MAX_PAGE_SIZE..];
    }
  }

  /**
   * Following the cursors from the first page ends after max(1, ceil(n/100))
   * pages, and the pages together are exactly the authorized candidates in order.
   */
  lemma PagesCoverEverything<T>(candidates: seq<T>, permitted: T -> bool, most: nat)
    requires |candidates| <= MAX_SAFE_INTEGER
    requires most >= PageCount(|Authorized(candidates, permitted)|)
    ensures var authorized := Authorized(candidates, permitted);
            var pages := Follow(authorized, None, most);
            && |pages| == PageCount(|authorized|) && Last(pages).nextCursor.None?
            && Results(pages) == authorized
            && (forall i :: 0 <= i < |pages| ==> |pages[i].results| <= SEARCH_MAX_PAGE_SIZE)
  {
    var authorized := Authorized(candidates, permitted);
    AuthorizedIsSelection(candidates, permitted);
    FollowFrom(authorized, 0, None, most);
    assert authorized[0..] == authorized;
  }

  /** The selection goes through the candidates in order, one by one. */
  lemma {:induction false} AuthorizedKeepsOrder<T>(front: seq<T>, x: T, back: seq<T>, permitted: T -> bool)
    ensures Authorized(front + [x] + back, permitted) ==
            Authorized(front, permitted) + (if permitted(x) then [x] else []) + Authorized(back, permitted)
    decreases |back|
  {
    if back == [] {
      assert front + [x] + [] == front + [x];
      assert Front(front + [x]) == front && Last(front + [x]) == x;
    } else {
      assert Front(front + [x] + back) == front + [x] + Front(back);
      AuthorizedKeepsOrder(front, x, Front(back), permitted);
    }
  }

  lemma {:induction false} AuthorizedIsSelection<T>(candidates: seq<T>, permitted: T -> bool)
    ensures |Authorized(candidates, permitted)| <= |candidates|
    ensures forall x :: x in Authorized(candidates, permitted) <==> x in candidates && permitted(x)
    decreases |candidates|
  {
    if candidates != [] {
      AuthorizedIsSelection(Front(candidates), permitted);
      assert candidates == Front(candidates) + [Last(candidates)];
    }
  }
}
