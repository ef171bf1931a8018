/** The record-building part of `scrape_hotel` (backend/scraper.py): strategy 1
    maps the records found in captured API payloads to results; strategy 2,
    used only when strategy 1 found nothing, labels the price tokens found in
    the page HTML. The regular-expression match lists are inputs. */
module Scrape {
  import opened Wrappers
  import opened Json
  import opened PriceExtraction
  import Text
  import Seqs

  /** The hotel/airport/duration being scraped, and the timestamp put on its results. */
  datatype Unit = Unit(hotelName: string, airport: string, nights: int, scrapedAt: string)

  /** One entry of the `results` list. */
  datatype ScrapeResult = ScrapeResult(
    hotelName: string, airport: string, nights: int,
    departureDate: string, roomType: string, boardBasis: string,
    pricePP: real, available: bool, scrapedAt: string)

  // ---------------------------------------------------------------- strategy 1: API

  /** Every record `extract_prices_recursive` finds in the captured payloads, in order. */
  function ApiRecords(captured: seq<Json>): (r: seq<PriceRecord>)
    ensures forall k :: 0 <= k < |r| ==> ValidRecord(r[k])
    ensures captured == [] ==> r == []
  {
    if captured == [] then []
    else ApiRecords(captured[..|captured| - 1]) + Extract(captured[|captured| - 1], 0)
  }

  /** The result built from record `p`: its date, room, board and price, marked available. */
  predicate FromRecord(res: ScrapeResult, p: PriceRecord, u: Unit) {
    && res.hotelName == u.hotelName && res.airport == u.airport && res.nights == u.nights
    && res.departureDate == p.date && res.roomType == p.room && res.boardBasis == p.board
    && res.pricePP == p.price && res.available && res.scrapedAt == u.scrapedAt
  }

  /** One result per found record, in order. */
  predicate IsApiResults(results: seq<ScrapeResult>, captured: seq<Json>, u: Unit) {
    var recs := ApiRecords(captured);
    |results| == |recs| && forall k :: 0 <= k < |results| ==> FromRecord(results[k], recs[k], u)
  }

  /** The strategy-1 loops over the captured payloads and their records. */
  method MapCaptured(captured: seq<Json>, u: Unit) returns (results: seq<ScrapeResult>)
    ensures IsApiResults(results, captured, u)
    ensures forall k :: 0 <= k < |results| ==> results[k].pricePP > PriceFloor && results[k].available
  {
    results := [];
    for i := 0 to |captured|
      invariant IsApiResults(results, captured[..i], u)
    {
      assert captured[..i + 1][..i] == captured[..i];
      ghost var before := ApiRecords(captured[..i]);
      var parsed := Extract(captured[i], 0);
      for j := 0 to |parsed|
        invariant |results| == |before| + j
        invariant forall k :: 0 <= k < |results| ==> FromRecord(results[k], (before + parsed)[k], u)
      {
        var p := parsed[j];
        results := results + [ScrapeResult(u.hotelName, u.airport, u.nights, p.date, p.room, p.board,
                                           p.price, true, u.scrapedAt)];
      }
    }
    assert captured[..|captured|] == captured;
  }

  // ---------------------------------------------------------------- strategy 2: DOM

  /** One `(day, month, year)` match of the date pattern. */
  datatype DateMatch = DateMatch(day: string, month: string, year: string)

  /** Only the first this-many price tokens are looked at. */
  const MaxTokens: nat := 20
  const DomMinPrice: real := 80.0
  const DomMaxPrice: real := 10000.0

  /** `float(pm.replace(",", ""))`, `None` for a `ValueError`. */
  function TokenPrice(token: string): Option<real> {
    Text.ParseNumber(Text.StripCommas(token))
  }

  /** A token of digits and thousands separators reads as the number its
      digits spell: `"1,234"` is 1234. */
  lemma TokenPriceOfDigits(token: string)
    requires Text.StripCommas(token) != [] && Text.AllDigits(Text.StripCommas(token))
    ensures TokenPrice(token) == Some(Text.DigitsValue(Text.StripCommas(token)) as real)
  {
    var t := Text.StripCommas(token);
    assert Text.IsDigit(t[0]) && Text.IsDigit(t[|t| - 1]);
    Text.ParseNumberUnsigned(t);
    Text.ParseUnsignedDigits(t);
  }

  /** The strict window `80 < price < 10000`. */
  predicate InWindow(p: real) {
    DomMinPrice < p < DomMaxPrice
  }

  /** A parsed token passes: it is a number and lies in the window. */
  predicate Accepted(p: Option<real>) {
    p.Some? && InWindow(p.value)
  }

  predicate AcceptedToken(token: string) {
    Accepted(TokenPrice(token))
  }

  /** The price of every token, `None` where `float` raises. */
  function Parsed(prices: seq<string>): (r: seq<Option<real>>)
    ensures |r| == |prices|
  {
    seq(|prices|, i requires 0 <= i < |prices| => TokenPrice(prices[i]))
  }

  /** A token made only of commas reads as "" and is skipped. */
  lemma AllCommasSkipped(token: string)
    requires forall i :: 0 <= i < |token| ==> token[i] == ','
    ensures !AcceptedToken(token)
  {
    Text.StripCommasOnlyCommas(token);
  }

  /** Thousands separators do not change a token's price. */
  lemma TokenPriceIgnoresComma(a: string, b: string)
    ensures TokenPrice(a + "," + b) == TokenPrice(a + b)
  {
    Text.CommaIgnored(a, b);
  }

  /** `len(prices_found[:20])`. */
  function TokenCount(prices: seq<string>): (n: nat)
    ensures n <= |prices| && n <= MaxTokens
    ensures n == |prices| || n == MaxTokens
  {
    if |prices| < MaxTokens then |prices| else MaxTokens
  }

  /** The positions among the first `n` parsed tokens that pass the window, in order. */
  function AcceptedIndices(parsed: seq<Option<real>>, n: nat): (r: seq<nat>)
    requires n <= |parsed|
    ensures |r| <= n
    ensures forall k :: 0 <= k < |r| ==> r[k] < n && Accepted(parsed[r[k]])
    ensures forall k, l :: 0 <= k < l < |r| ==> r[k] < r[l]
    ensures forall i :: 0 <= i < n ==> (Accepted(parsed[i]) <==> i in r)
  {
    if n == 0 then []
    else AcceptedIndices(parsed, n - 1) + (if Accepted(parsed[n - 1]) then [n - 1] else [])
  }

  /** `[r.strip().title() for r in rooms_found]`. */
  function CleanRooms(roomsFound: seq<string>): (r: seq<string>)
    ensures |r| == |roomsFound|
    ensures forall i :: 0 <= i < |r| ==> r[i] == Text.Title(Text.Strip(roomsFound[i]))
    ensures forall i :: 0 <= i < |r| ==>
              Text.Strip(r[i]) == r[i] && Text.Title(r[i]) == r[i] && Text.Title(Text.Strip(r[i])) == r[i]
  {
    var r := seq(|roomsFound|, i requires 0 <= i < |roomsFound| => Text.Title(Text.Strip(roomsFound[i])));
    forall i | 0 <= i < |r|
      ensures Text.Strip(r[i]) == r[i] && Text.Title(r[i]) == r[i]
    {
      Text.TitleTrimmed(Text.Strip(roomsFound[i]));
      Text.TitleIdempotent(Text.Strip(roomsFound[i]));
    }
    r
  }

  /** `list(dict.fromkeys(CleanRooms(rooms_found))) or ["Standard"]`. */
  function RoomsList(roomsFound: seq<string>): (r: seq<string>)
    ensures |r| > 0 && Seqs.NoDup(r)
    ensures roomsFound == [] ==> r == [DefaultRoom]
    ensures roomsFound != [] ==> r == Seqs.Dedup(CleanRooms(roomsFound))
    ensures roomsFound != [] ==> forall x :: x in r <==> x in CleanRooms(roomsFound)
  {
    var d := Seqs.Dedup(CleanRooms(roomsFound));
    if d == [] then [DefaultRoom] else d
  }

  /** `boards_found[0] if boards_found else "Unknown"` (not title-cased). */
  function BoardChoice(boardsFound: seq<string>): (r: string)
    ensures boardsFound == [] ==> r == DefaultBoard
    ensures boardsFound != [] ==> r == boardsFound[0]
  {
    if boardsFound != [] then boardsFound[0] else DefaultBoard
  }

  /** `f"{d[2]}-{d[1]}-{d[0]}"`: year, month, day. */
  function DateText(d: DateMatch): string {
    d.year + "-" + d.month + "-" + d.day
  }

  /** Splits `year-month-day` text back into its three parts. */
  function ParseDateText(s: string): Option<DateMatch> {
    if '-' !in s then None
    else
      var a := Text.IndexOfChar(s, '-');
      var rest := s[a + 1..];
      if '-' !in rest then None
      else
        var b := Text.IndexOfChar(rest, '-');
        if '-' in rest[b + 1..] then None
        else Some(DateMatch(rest[b + 1..], rest[..b], s[..a]))
  }

  lemma IndexOfCharAt(s: string, c: char, k: nat)
    requires k < |s| && s[k] == c && c !in s[..k]
    ensures Text.IndexOfChar(s, c) == k
  {
  }

  /** The date text of a match splits back into the match: no two matches
      share a text, as long as no part holds a '-' (the pattern's parts are
      digits and letters). */
  lemma DateTextRoundTrip(d: DateMatch)
    requires '-' !in d.day && '-' !in d.month && '-' !in d.year
    ensures ParseDateText(DateText(d)) == Some(d)
  {
    var s := DateText(d);
    var a := |d.year|;
    assert s[a] == '-' && s[..a] == d.year;
    IndexOfCharAt(s, '-', a);
    var rest := s[a + 1..];
    assert rest == d.month + "-" + d.day;
    var b := |d.month|;
    assert rest[b] == '-' && rest[..b] == d.month;
    IndexOfCharAt(rest, '-', b);
    assert rest[b + 1..] == d.day;
  }

  /** `date_str` for token `i`: the i-th date match when there is one, else "". */
  function DateFor(dates: seq<DateMatch>, i: nat): string {
    if i < |dates| then DateText(dates[i]) else ""
  }

  /** The result built from price token `i`. */
  predicate FromToken(res: ScrapeResult, i: nat, parsed: seq<Option<real>>, rooms: seq<string>, board: string,
                      dates: seq<DateMatch>, u: Unit)
    requires i < |parsed| && |rooms| > 0 && Accepted(parsed[i])
  {
    && res.hotelName == u.hotelName && res.airport == u.airport && res.nights == u.nights
    && res.departureDate == DateFor(dates, i)
    && res.roomType == rooms[i % |rooms|]
    && res.boardBasis == board
    && res.pricePP == parsed[i].value
    && res.available && res.scrapedAt == u.scrapedAt
  }

  /** One result per accepted token among the first twenty, in token order. */
  predicate IsDomResults(results: seq<ScrapeResult>, prices: seq<string>, roomsFound: seq<string>,
                         boardsFound: seq<string>, dates: seq<DateMatch>, u: Unit)
  {
    var parsed := Parsed(prices);
    var idx := AcceptedIndices(parsed, TokenCount(prices));
    && |results| == |idx|
    && forall k :: 0 <= k < |results| ==>
         FromToken(results[k], idx[k], parsed, RoomsList(roomsFound), BoardChoice(boardsFound), dates, u)
  }

  /** The result the loop appends for accepted token `i`. */
  function TokenResult(i: nat, price: real, rooms: seq<string>, board: string, dates: seq<DateMatch>,
                       u: Unit): ScrapeResult
    requires |rooms| > 0
  {
    ScrapeResult(u.hotelName, u.airport, u.nights, DateFor(dates, i), rooms[i % |rooms|], board,
                 price, true, u.scrapedAt)
  }

  /** What the loop has appended after its first `n` tokens. */
  function DomUpTo(parsed: seq<Option<real>>, n: nat, rooms: seq<string>, board: string, dates: seq<DateMatch>,
                   u: Unit): seq<ScrapeResult>
    requires n <= |parsed| && |rooms| > 0
  {
    if n == 0 then []
    else
      DomUpTo(parsed, n - 1, rooms, board, dates, u)
      + (if Accepted(parsed[n - 1]) then [TokenResult(n - 1, parsed[n - 1].value, rooms, board, dates, u)]
         else [])
  }

  /** The loop's output holds one record per accepted token, in order. */
  lemma {:induction false} DomUpToSpec(parsed: seq<Option<real>>, n: nat, rooms: seq<string>, board: string,
                                       dates: seq<DateMatch>, u: Unit)
    requires n <= |parsed| && |rooms| > 0
    ensures var r := DomUpTo(parsed, n, rooms, board, dates, u);
            var idx := AcceptedIndices(parsed, n);
            && |r| == |idx|
            && forall k :: 0 <= k < |r| ==> FromToken(r[k], idx[k], parsed, rooms, board, dates, u)
  {
    if n > 0 {
      DomUpToSpec(parsed, n - 1, rooms, board, dates, u);
    }
  }

  /** The strategy-2 loop over `enumerate(prices_found[:20])`. */
  method DomFallback(prices: seq<string>, roomsFound: seq<string>, boardsFound: seq<string>,
                     dates: seq<DateMatch>, u: Unit) returns (results: seq<ScrapeResult>)
    ensures IsDomResults(results, prices, roomsFound, boardsFound, dates, u)
  {
    var roomsList := RoomsList(roomsFound);
    var board := BoardChoice(boardsFound);
    var n := TokenCount(prices);
    ghost var parsed := Parsed(prices);
    results := [];
    for i := 0 to n
      invariant results == DomUpTo(parsed, i, roomsList, board, dates, u)
    {
      var price := TokenPrice(prices[i]);
      assert price == parsed[i];
      if price.Some? && InWindow(price.value) {
        var dateStr := "";
        if i < |dates| {
          var d := dates[i];
          dateStr := d.year + "-" + d.month + "-" + d.day;
        }
        results := results + [ScrapeResult(u.hotelName, u.airport, u.nights, dateStr,
                                           roomsList[i % |roomsList|], board, price.value, true, u.scrapedAt)];
      }
    }
    DomUpToSpec(parsed, n, roomsList, board, dates, u);
  }

  /** What every DOM result satisfies: at most twenty of them, each priced
      strictly inside the window, labelled with the chosen board and with one
      of the cleaned room names. */
  lemma DomResultsFacts(results: seq<ScrapeResult>, prices: seq<string>, roomsFound: seq<string>,
                        boardsFound: seq<string>, dates: seq<DateMatch>, u: Unit)
    requires IsDomResults(results, prices, roomsFound, boardsFound, dates, u)
    ensures |results| <= MaxTokens
    ensures forall k :: 0 <= k < |results| ==>
              && InWindow(results[k].pricePP)
              && results[k].boardBasis == (if boardsFound == [] then DefaultBoard else boardsFound[0])
              && results[k].roomType in RoomsList(roomsFound)
              && results[k].available
  {
    var parsed := Parsed(prices);
    var idx := AcceptedIndices(parsed, TokenCount(prices));
    var rooms := RoomsList(roomsFound);
    forall k | 0 <= k < |results|
      ensures InWindow(results[k].pricePP) && results[k].roomType in rooms
    {
      assert FromToken(results[k], idx[k], parsed, rooms, BoardChoice(boardsFound), dates, u);
    }
  }

  // ---------------------------------------------------------------- both strategies

  /** `scrape_hotel` after the page has loaded: the DOM labelling runs only
      when the captured payloads gave no record. */
  method ScrapeHotel(captured: seq<Json>, prices: seq<string>, roomsFound: seq<string>,
                     boardsFound: seq<string>, dates: seq<DateMatch>, u: Unit)
    returns (results: seq<ScrapeResult>)
    ensures ApiRecords(captured) != [] ==> IsApiResults(results, captured, u)
    ensures ApiRecords(captured) == [] ==> IsDomResults(results, prices, roomsFound, boardsFound, dates, u)
  {
    results := MapCaptured(captured, u);
    if |results| == 0 {
      results := DomFallback(prices, roomsFound, boardsFound, dates, u);
    }
  }
}
