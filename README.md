# Jet2 price scraper — verified model of the record logic

This project models in Dafny the deterministic core of `backend/scraper.py`, a
scraper of package-holiday prices. The core has three parts.

- **The JSON price search** (`extract_prices_recursive`). It walks a decoded
  JSON payload depth-first, at most 8 levels deep. A dict within the cap is
  accepted when one of its price aliases, tried in order, converts to a number
  above 50. The first such value is its price, and its children are not
  searched. For each accepted dict it builds one `{price, date, room, board}`
  record from first-match alias lists with fixed defaults.
- **The record building of `scrape_hotel`.**
  - Strategy 1 maps every record found in the captured API payloads to a
    result.
  - Strategy 2, run only when strategy 1 found nothing, labels the page's
    price tokens. It strips their commas and keeps those strictly between 80 and
    10000 among the first 20. Each kept token gets the room `rooms_list[i % len]`
    for its token index `i`, so a rejected token still advances the rotation.
    It also gets the one board and the date at the same index.
  - The four regular-expression match lists are inputs.
- **The output block of `main`.** It groups all results by hotel name in order
  of first appearance, heads each group with the hotel's tracked metadata, and
  counts the prices.

Modules, one file each:

| file | module | contents |
|---|---|---|
| `wrappers.dfy` | `Wrappers` | `Option` |
| `seqs.dfy` | `Seqs` | `dict.fromkeys` de-duplication and first-index search |
| `text.dfy` | `Text` | `str.strip`, `str.title`, `replace(",", "")`, and `float()` on plain decimal text |
| `json.dfy` | `Json` | the decoded JSON tree, Python truthiness, `k in obj` / `obj[k]`, `float(v)`, `str(v)` |
| `extract.dfy` | `PriceExtraction` | `extract_prices_recursive` and its properties |
| `scrape.dfy` | `Scrape` | strategies 1 and 2 of `scrape_hotel` |
| `output.dfy` | `Output` | `TRACKED_HOTELS` and the grouping |

How the model is built:

- The JSON search is a set of pure recursive functions.
- The loops that append to `results` are methods, as are the loop filling the
  `hotels` dict and the listing of its values.
  - Each method is proved equal to a specification function.
  - The properties are proved as lemmas about that function.
- The dict is a `map` plus the sequence of its keys in insertion order.

The price-alias loop carries its `price` variable from one alias to the next.
`PriceLoop` models that as written. `PriceLoopIsFirstAlias` proves that it
stops exactly on the first alias whose value converts to a number above 50.

The depth guard is `depth > 8`, so a dict reached at depth 8 is still
searched. The priced dict of `{"a":{"a":{"a":{"a":{"a":{"a":{"a":{"a":{"price":999}}}}}}}}}`
(nine levels of braces) sits at depth 8 and yields one record. With ten
levels of braces the priced dict sits at depth 9 and yields nothing.
`DepthCapExample` proves both cases.

## Model

| member | source | states |
|---|---|---|
| `Json.Lookup` | backend/scraper.py:188 | `k in obj` and `obj[k]`: a value exactly when the key is present, and it is the key's own value |
| `Json.TruthyValues` | backend/scraper.py:182 | `not obj` and `obj[k]` as tests: a number or boolean is true exactly when it is not zero, a string, list or dict exactly when it is not empty, and `None` never |
| `Json.ToFloat` | backend/scraper.py:190-191 | `float(v)`: fails only for `None`, lists, dicts and unparsable strings; numbers and booleans always convert, to zero exactly when they are falsy |
| `Json.ToFloatRenderInt` | backend/scraper.py:190-191 | `float(str(i)) == float(i)` for every int, negative ones included: the text of a number reads back as that number |
| `Json.Render` | backend/scraper.py:199 | `str(v)`: a string renders as itself, and a truthy value never renders as "" |
| `Text.Strip` | backend/scraper.py:146 | `strip()` gives no longer text, with no whitespace at either end |
| `Text.StripSlice` | backend/scraper.py:146 | `strip()` removes only whitespace, and only at the two ends: the result is a slice flanked by whitespace |
| `Text.StripIdempotent` | backend/scraper.py:146 | stripping twice equals stripping once |
| `Text.Title` | backend/scraper.py:146 | `title()` keeps the length, upper-cases exactly the letters that start a word and lower-cases the rest |
| `Text.TitleFromAt` | backend/scraper.py:146 | the `title()` scan at any position: upper case at a word start, lower case elsewhere |
| `Text.TitleIdempotent` | backend/scraper.py:146 | title-casing twice equals title-casing once, so cleaned room names are stable |
| `Text.TitleTrimmed` | backend/scraper.py:146 | `title()` never creates whitespace at the ends, so a stripped name stays stripped after title-casing |
| `Text.StripCommas` | backend/scraper.py:151 | `replace(",", "")` leaves no comma, keeps every other character, and is the identity on comma-free text |
| `Text.StripCommasOnlyCommas` | backend/scraper.py:151 | a token made only of commas becomes "" |
| `Text.StripCommasAppend` | backend/scraper.py:151 | comma removal distributes over concatenation |
| `Text.CommaIgnored` | backend/scraper.py:151 | a comma anywhere in a token does not change the stripped text |
| `Text.ParseNumber` | backend/scraper.py:151 | `float()` on text rejects the empty string |
| `Text.ParseNumberNonDigit` | backend/scraper.py:151 | `float()` rejects trimmed text that starts with neither a digit, a point nor a sign, such as "n/a" |
| `Text.ParseDecimalText` | backend/scraper.py:151 | the decimal text of any natural number parses back to that number |
| `Text.ParseIntText` | backend/scraper.py:151 | `str()` of any int, with its minus sign, parses back to that int |
| `Text.ParsePointText` | backend/scraper.py:151 | `digits.digits` parses to the whole part plus the scaled fraction |
| `Text.DecimalTextValue` | backend/scraper.py:199 | `str()` of an int's digits has that int's value |
| `PriceExtraction.FirstAlias` | backend/scraper.py:187-194 | first match wins: the chosen alias is present and passes the loop's test, and no earlier alias does; `None` when none does |
| `PriceExtraction.AliasValue` | backend/scraper.py:197-210 | the value of a present alias with no earlier alias passing the loop's test; it passes the test, and exists exactly when some alias passes |
| `PriceExtraction.PriceLoop` | backend/scraper.py:186-194 | the carried `price` is only ever the starting value or the converted value of some alias present in the dict |
| `PriceExtraction.PriceLoopIsFirstAlias` | backend/scraper.py:186-195 | the alias loop with its carried `price` ends on a price above 50 exactly when some alias converts to one, and then on the first such alias's value; unparsable or small values never stop it |
| `PriceExtraction.AcceptedPrice` | backend/scraper.py:186-195 | a dict's accepted price is above 50, exists exactly when some price alias qualifies, and is `float()` of a present price alias with no earlier alias qualifying |
| `PriceExtraction.DateOf` | backend/scraper.py:196-200 | "" exactly when no date alias is truthy; otherwise the first `min(len, 10)` characters of `str()` of the first truthy alias: the whole text when it is shorter than 10 |
| `PriceExtraction.RoomOf` | backend/scraper.py:201-205 | longer than 2 characters: the first room alias holding a string longer than 2, else "Standard" |
| `PriceExtraction.BoardOf` | backend/scraper.py:206-210 | first match wins: "Unknown" when no board alias holds a string; otherwise the string held by some board alias with no earlier alias holding one |
| `PriceExtraction.Extract` | backend/scraper.py:180-218 | every record has price > 50, date of at most 10 characters and room longer than 2; depth > 8 and falsy input give []; scalars give [] |
| `PriceExtraction.ExtractItems` | backend/scraper.py:215-217 | all records from a list's items are valid; nothing below the depth cap |
| `PriceExtraction.ExtractFields` | backend/scraper.py:212-214 | all records from a dict's values are valid; nothing below the depth cap |
| `PriceExtraction.ExtractObject` | backend/scraper.py:185-214 | a non-empty dict within the cap yields exactly one record when a price alias qualifies, without searching its children, else the results of its values one level deeper |
| `PriceExtraction.ExtractItemsAppend` | backend/scraper.py:215-217 | a list's results are the in-order concatenation of its items' results |
| `PriceExtraction.ExtractFieldsAppend` | backend/scraper.py:212-214 | an unaccepted dict's results are the in-order concatenation of its values' results |
| `PriceExtraction.ExtractWrap` | backend/scraper.py:182-214 | a one-member dict under a key that is no price alias yields exactly its value's results one level deeper |
| `PriceExtraction.ExtractNest` | backend/scraper.py:182-214 | each wrapping dict without a price alias adds one to the depth and nothing else |
| `PriceExtraction.PricedLeafRecord` | backend/scraper.py:195-211 | `{"price": 999}` is accepted at 999 with date "", room "Standard" and board "Unknown" |
| `PriceExtraction.UnparsableAliasSkipped` | backend/scraper.py:187-194 | null, unparsable and too-small aliases are skipped, and the later `pricePP` of 120 is taken |
| `PriceExtraction.DepthCapExample` | backend/scraper.py:182-183 | the priced dict under 8 wrappers yields its record; under 9 wrappers it yields nothing |
| `Scrape.ApiRecords` | backend/scraper.py:115-116 | every record found in the captured payloads is valid; no payload gives no record |
| `Scrape.MapCaptured` | backend/scraper.py:115-128 | one result per found record, in order: its date, room, board and price, marked available, with the unit's hotel, airport, nights and timestamp |
| `Scrape.AllCommasSkipped` | backend/scraper.py:150-152 | a token made only of commas fails to parse and is skipped |
| `Scrape.TokenPriceIgnoresComma` | backend/scraper.py:151 | a token's price ignores its thousands separators |
| `Scrape.TokenPriceOfDigits` | backend/scraper.py:151 | `float(pm.replace(",", ""))` of a token of digits and commas, such as "1,234", is the number its digits spell |
| `Scrape.TokenCount` | backend/scraper.py:149 | `prices_found[:20]` has at most 20 tokens, and fewer only when there are fewer |
| `Scrape.AcceptedIndices` | backend/scraper.py:149-152 | the accepted positions are below the cut, strictly increasing, and include exactly the tokens whose price lies strictly between 80 and 10000 |
| `Scrape.CleanRooms` | backend/scraper.py:146 | one cleaned name per match, in order; every cleaned name has no whitespace at its ends, is its own `title()`, and is unchanged by cleaning it again |
| `Scrape.RoomsList` | backend/scraper.py:146 | never empty and without duplicates; `["Standard"]` for no matches, otherwise the cleaned names in first-occurrence order, all of them and nothing else |
| `Scrape.DateTextRoundTrip` | backend/scraper.py:153-156 | the `year-month-day` text of a date match splits back into that match |
| `Scrape.DomUpToSpec` | backend/scraper.py:149-167 | after any number of tokens the loop holds one result per accepted token, in order, with room `rooms_list[i % len]`, the board, the i-th date or "", and the token's price |
| `Scrape.DomFallback` | backend/scraper.py:149-169 | the loop's results are exactly one per accepted token among the first 20, in token order, as above |
| `Scrape.DomResultsFacts` | backend/scraper.py:147-167 | at most 20 DOM results, each priced strictly between 80 and 10000, with a room from the room list, and all with the board `boards_found[0]`, or "Unknown" when no board matched |
| `Scrape.ScrapeHotel` | backend/scraper.py:114-171 | the API results when strategy 1 finds any record; otherwise exactly the DOM results |
| `Output.FirstConfig` | backend/scraper.py:262 | the first tracked hotel of that name, or none when no tracked hotel has it |
| `Output.HeaderFirstMatch` | backend/scraper.py:261-269 | a new group is headed by its name with no prices, and with the destination, stars and rating of the first tracked hotel of that name, or "", None, None when none has it |
| `Output.PricesOf` | backend/scraper.py:270-278 | a group's entries are never more than the results, and are empty for a hotel without results |
| `Output.PricesOfSnoc` | backend/scraper.py:270-278 | one more result appends its entry to its own hotel's group and leaves every other group unchanged |
| `Output.GroupStep` | backend/scraper.py:259-278 | filing one result keeps every dict value equal to that hotel's complete group so far |
| `Output.FileStep` | backend/scraper.py:259-278 | one pass of the loop, creating the header for an unseen name and appending the entry, keeps the keys in first-seen order and every value equal to its complete group |
| `Output.GroupOver` | backend/scraper.py:281 | one group per listed name, in the listed order |
| `Output.FileResults` | backend/scraper.py:258-278 | the dict's keys are the distinct hotel names in first-seen order, and each value is that hotel's header with its entries |
| `Output.ListGroups` | backend/scraper.py:281 | `list(hotels.values())` in key-insertion order |
| `Output.BuildOutput` | backend/scraper.py:258-284 | the output is the grouped hotels, the given timestamp and `total_prices = len(all_results)` |
| `Output.GroupedHeads` | backend/scraper.py:259-269 | the k-th group is headed by the k-th distinct hotel name |
| `Output.GroupedNames` | backend/scraper.py:259-269 | group names are distinct, each result's hotel has a group, every group's hotel has results, and groups follow first appearance |
| `Output.GroupedMetadata` | backend/scraper.py:262-267 | a group's destination, stars and rating come from the first tracked hotel of its name, and are "", None, None for an untracked one |
| `Output.TrackedHeaders` | backend/scraper.py:30-61 | the tracked list gives Zafiro Palace Alcudia and Hotel Flamingo Oasis their configured metadata; an unknown hotel gets the empty defaults |
| `Output.ResultFiled` | backend/scraper.py:270-278 | every result's entry is in its own hotel's group |
| `Output.PricesOfHas` | backend/scraper.py:270-278 | each result's entry is among its hotel's entries |
| `Output.PricesOfOwn` | backend/scraper.py:270-278 | a group holds only entries of results for its own hotel |
| `Output.SizeSumCovers` | backend/scraper.py:259-278 | over distinct names that cover every result, the group sizes add up to the number of results |
| `Output.GroupedTotal` | backend/scraper.py:280-284 | the groups partition the results: their price counts add up to `total_prices` |
| `Seqs.Dedup` | backend/scraper.py:146 | `dict.fromkeys`: the same elements, each once, never longer |
| `Seqs.DedupOrder` | backend/scraper.py:146 | the kept elements appear in order of their first occurrence |
| `Seqs.DedupSnoc` | backend/scraper.py:261 | a new element is added at the end exactly when it was not seen before |

## Left out

- Browser control is not modelled: the Playwright launch and context, page navigation with its timeouts, the cookie-banner clicks, scrolling, `asyncio.sleep` and the resource-blocking route. These are I/O over an external renderer.
- The early `return results` when neither page load succeeds is not a separate path in the model. That path returns an empty list.
- The `on_response` listener and its content-type and URL keyword filter are not modelled. The captured payloads are an input to `Scrape.ScrapeHotel` and `Scrape.MapCaptured`.
- `re.findall` over the HTML is not modelled. The price, room, board and date match lists are inputs, and a date match is its three captured groups.
- The clock is not modelled. Every `datetime.now().isoformat()` on a unit's results is the one `scrapedAt` value of `Scrape.Unit`, and the output's `scraped_at` is the `now` parameter of `Output.BuildOutput`.
- `print` logging, the output directory and the JSON file written to `OUTPUT_PATH` are not modelled.
- The scrape loop of `main` over hotels, airports and nights, with its exception handler, is not modelled. `Output.BuildOutput` takes the concatenated results as input.
- URL construction and the `AIRPORTS` table are not modelled. They only feed the browser.
- `Text.ParseNumber`: `float()` is modelled for these inputs only:
  - plain decimal text;
  - optional surrounding whitespace;
  - an optional sign;
  - digits with at most one point.

  Exponents, `inf`, `nan`, underscores and non-ASCII digits read as a failed conversion. Values are exact reals, so binary floating-point rounding is not modelled.
- `Json.Render`: `str()` is exact for strings, booleans, `None` and ints. For floats, lists and dicts it gives the fixed text "?", so their date truncation is not modelled.
- `Text.Title` and `Text.Strip`: case mapping is modelled for ASCII letters only. Whitespace is Python's full `isspace` set of code points.
- `Json.ToFloat`: JSON numbers are exact ints and reals, not IEEE doubles, so two behaviours of the code are not modelled:
  - `json.loads` reads `Infinity` and numbers such as `1e400` as `inf`, which the code accepts as a price, since it is truthy and above 50. `JFloat` cannot hold `inf`.
  - `float()` of an int above about 1.8e308 raises `OverflowError`, which the `except (ValueError, TypeError)` does not catch. The exception leaves `scrape_hotel`, and the handler in `main` drops that whole unit. The model reads such an int as an ordinary large price.
- `Json.Lookup`: a decoded dict is a sequence of key/value pairs, and the first pair with a key is its value. A decoded object never holds duplicate keys.

No price de-duplication, cheapest-per-room aggregation or availability check is modelled, because the code has none.
