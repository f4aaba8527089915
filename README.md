# National sites browser: read-through cache and its callers

This project models the SI 507 national-sites browser (`si507_waiver.py`).

The core of the browser is a read-through `Cache`:
- It holds a table from request URL to raw response body.
- It loads the table once from a JSON backing file at start-up. An empty table is used when the file is missing or unreadable.
- On a miss it fills the table from the network.
- After every insertion it rewrites the whole table to the file.

Around the cache sit the pieces that build or use its keys and values:
- the one-line summary of a national site (`NationalSite.info`);
- the state dictionary built from the nps.gov menu links;
- the loop that reads each park page of a state;
- the zip-code guard and MapQuest request URL of `get_nearby_places`;
- in the interactive loop: the state and site-number choices, and the place lines with their "no category / no address / no city" fallbacks.

Modules:
- `Caching` (`cache.dfy`) gives the cache in two forms:
  - as pure functions on a `Store` value (`OpenStore`, `ReadStore`, `WriteStore`, and sessions `ReadAll` / `WriteAll`);
  - as the `Cache` class, whose `cacheDict` field its methods update in place.
  Each method's contract ties the new object state to the pure function of the old state. The lemmas about the pure functions carry the properties the cache promises:
  - a hit changes nothing;
  - a miss sends one GET and stores the body;
  - at most one GET is sent per key;
  - the backing file always equals the table;
  - a reopened cache serves what was read.
- `Sites` (`sites.dfy`) holds the site record, its summary line, and the MapQuest request.
- `Retrieval` (`retrieval.dfy`) holds `build_state_url_dict`, `get_sites_for_state` and `get_nearby_places`, over the cache.
- `Menu` (`menu.dfy`) holds the pure decisions and formatting of the interactive loop.
- `Text` (`text.dfy`) holds the Python string operations used: `strip`, `lower`, `isdecimal`, `int`/`str` on naturals.
- `Wrappers` (`wrappers.dfy`) holds `Option`.

The outside world becomes parameters or ghost state:
- The network is a `Network` parameter: a function from URL to `Option` body. `None` stands for a transport failure, where `requests.get` raises. Any HTTP status counts as a body and is cached, as in the source.
- The backing file is the ghost field `file`. Its value is `None` when the file is missing or cannot be parsed, and `Some(t)` after `json.dump` wrote table `t`.
- Every GET the cache sends is appended to the ghost log `fetches`.
- What BeautifulSoup extracts from a page is given as a function of the page body:
  - `anchorsOf` for the state menu links;
  - `parkHrefs` for the park links;
  - `siteOf` for `get_site_instance`.
- The API key is a string parameter.

A site whose page has no postal address gets `''` as its address and zip code (`get_site_instance`, si507_waiver.py:115-118). For such a site, `get_nearby_places` prints "No zip code" and returns `None` (si507_waiver.py:159-161). Line 195 then subscripts that `None`, so choosing the site ends the session with an exception (see Findings).

## Model

| member | source | states |
|---|---|---|
| Caching.OpenStore | si507_waiver.py:45-51 | Construction never fails. The table is the loaded map, or empty when loading failed. The backing file is left as found, and no GET has been sent. |
| Caching.OpenIsCoherent | si507_waiver.py:45-51 | A freshly opened cache is coherent: reloading its file gives its table back, whether or not the file loaded. |
| Caching.Cache.constructor | si507_waiver.py:45-51 | The object's state is `OpenStore(loaded)`. `cacheDict` is the loaded map, or empty when loading failed. The state is coherent. |
| Caching.WriteStore | si507_waiver.py:63-66 | The key maps to the new body. The keys are the old keys plus this one, and every other key keeps its value. The backing file equals the whole new table. The GET log is unchanged. |
| Caching.Cache.Write | si507_waiver.py:63-66 | The object's new state is `WriteStore` of the old one: `cacheDict[url] := data`, then the file holds the whole table. |
| Caching.ReadStore | si507_waiver.py:53-61 | A hit returns the stored body and changes nothing. A miss sends exactly one GET for the URL and returns what the network gave. If that is a body, it is stored under the URL and the file rewritten. If the transport fails, the table and file are untouched. |
| Caching.Cache.Read | si507_waiver.py:53-61 | The object's new state and the returned body are those of `ReadStore`. On a hit the object is unchanged. A returned body is stored under its URL. |
| Caching.ReadOnlyAdds | si507_waiver.py:53-66 | A read loses no stored entry and changes no stored value. A body it returns is the one now stored under its URL. |
| Caching.ReadKeepsCoherent | si507_waiver.py:53-66 | Every read keeps the backing file equal to the in-memory table. |
| Caching.ReadTwiceFetchesOnce | si507_waiver.py:53-61 | After a read returned a body, a second read of that URL returns the same body, sends no GET and changes nothing, whatever the network would now answer. |
| Caching.ReopenedCacheServesReadBody | si507_waiver.py:45-66 | After a read returned a body, a cache reopened from the backing file serves that body without a GET. |
| Caching.ReadAllOnlyGrows | si507_waiver.py:53-66 | A session of reads, ending in failure or not, keeps every stored entry and only appends to the GET log. |
| Caching.ReadAll | si507_waiver.py:53-61 | A session of `read` calls in order, ended by the first transport failure. It sends at most one GET per read and never removes one from the log. |
| Caching.FirstMissesAreNew | si507_waiver.py:53-61 | The GETs a read-through cache should send are exactly for the URLs that were read and not stored: each such URL gets one, no other URL does, and none is repeated. |
| Caching.ReadAllFetchesFirstMisses | si507_waiver.py:53-61 | While the network delivers, a session sends exactly one GET per URL not already stored, at its first read, and nothing else. |
| Caching.FirstReadOfSession | si507_waiver.py:53-61 | The first read of a session sends a GET exactly when its URL is not stored, and the rest of the session continues from its state. |
| Caching.ReadAllStoresEveryUrl | si507_waiver.py:53-61 | While the network delivers, a session's table keys become exactly the old keys plus every URL read. |
| Caching.DeliveredReadKeys | si507_waiver.py:53-61 | A read the network answers adds exactly its URL to the keys. |
| Caching.ReadAllStoresFetchedBodies | si507_waiver.py:57-61 | Every URL fetched during a delivering session ends up stored with the body the network gave. |
| Caching.WriteAllPersists | si507_waiver.py:63-66 | `Caching.WriteAll` is a sequence of `write` calls. Writing N distinct new keys leaves a backing file that holds the earlier table plus exactly those N entries. (`Caching.ExtendsTransitive` is its helper, chaining the entries kept over successive writes.) |
| Caching.WritesFromNothingReload | si507_waiver.py:45-51 | Starting with no usable file, N writes of distinct keys followed by a reload give exactly those N entries, for every N including 0. |
| Caching.FirstReadFetchesSecondHits | si507_waiver.py:45-61 | A fresh cache over a missing file fetches a URL once and persists `{url: body}`. It then serves the second read from memory with no further GET. |
| Sites.Info | si507_waiver.py:40-41 | `info()` starts with the name and ends with the zip code, and its length is that of the four fields plus six characters of punctuation. |
| Sites.InfoRoundTrip | si507_waiver.py:40-41 | `info()` is `name (category): address zipcode`. Splitting the line at the first "(", the first ")" after it and the last space gives back the four fields, whenever the name has no "(", the category no ")" and the zip no space. The helper searches `Sites.IndexOf` / `Sites.LastIndexOf`, their lemmas `Sites.IndexOfFirst` / `Sites.LastIndexOfLast`, and `Sites.InfoGrouping` (the line's concatenation regrouped) serve this proof only. |
| Sites.NameEndsAtParenthesis | si507_waiver.py:40-41 | The name of a summary line ends at its first "(". |
| Sites.CategoryEndsAtParenthesis | si507_waiver.py:40-41 | The category ends at the first ")" after the name. |
| Sites.ZipFollowsLastSpace | si507_waiver.py:40-41 | The zip code is what follows the last space. |
| Sites.NearbyRequest | si507_waiver.py:159-162 | There is no request exactly when the zip code is empty. Otherwise the request is the `NearbyKey` search for the zip code. |
| Sites.NearbyKey | si507_waiver.py:162 | The request URL and cache key: the MapQuest search endpoint, then the API key, then `&origin=` and the zip code, then the fixed radius options, each at its fixed position. |
| Sites.NearbyKeyInjective | si507_waiver.py:162-163 | Under one API key, different zip codes give different cache keys, so one zip code's places are never served for another. |
| Retrieval.StateKey | si507_waiver.py:91 | The dictionary key of a link is its text stripped and lower-cased. It is no longer than the text, and it is already lower case, so the lower-cased input of line 174 can equal it. |
| Retrieval.StateUrls | si507_waiver.py:89-91 | The dictionary filled from the links in order. It has at most one entry per link, and is empty exactly when there are no links. |
| Retrieval.StateUrlsKeys | si507_waiver.py:89-91 | A name is a key of the state dictionary exactly when some menu link's stripped, lower-cased text is that name. |
| Retrieval.StateUrlsLastWins | si507_waiver.py:89-91 | A key maps to `https://www.nps.gov` + the href of the last link with that key. Later duplicates overwrite earlier ones. |
| Retrieval.StateUrlDict | si507_waiver.py:89-92 | The dictionary-filling loop builds exactly `StateUrls` of the links, in order. |
| Retrieval.BuildStateUrlDict | si507_waiver.py:85-92 | The home page is read through the cache. The dictionary is built from its links, or there is none when the read raised. |
| Retrieval.SiteUrl | si507_waiver.py:142 | A park page URL is `https://www.nps.gov` followed by the href unchanged. |
| Retrieval.SiteUrls | si507_waiver.py:142 | Each park href becomes its `https://www.nps.gov` URL, one for one and in order. |
| Retrieval.ReadAllSnoc | si507_waiver.py:141-142 | Extending a completed session by one read is that read on the session's state, and it completes exactly when that read returns. |
| Retrieval.GetSitesForState | si507_waiver.py:137-143 | The state page is read first. Then every park page it lists is read in order, and the cache ends in the state of that read session. A site list comes back exactly when every read returned, and each site is built from its stored page. |
| Retrieval.ReadSitePages | si507_waiver.py:140-143 | The park loop's cache state is the session `ReadAll` of the URLs. It returns sites exactly when the session completes, one site per URL, built from its stored page. |
| Retrieval.SitePageRead | si507_waiver.py:141-142 | One turn of the park loop extends both the session and the site list by one, or fails and ends the session there. |
| Retrieval.SitesStayBuilt | si507_waiver.py:141-142 | Sites built from stored pages still match once the table has grown. |
| Retrieval.ReadAllStopsAtFailure | si507_waiver.py:141-142 | A session that fails at some read performs no later read. |
| Retrieval.GetNearbyPlaces | si507_waiver.py:159-164 | A site without a zip code gets nothing and the cache is untouched. Otherwise the MapQuest request for its zip code is read through the cache, and its body (or the failure) is returned. |
| Text.StripStartSpec | si507_waiver.py:91 | Stripping the start removes exactly a whitespace prefix and leaves a result that does not start with whitespace. |
| Text.StripEndSpec | si507_waiver.py:91 | Stripping the end removes exactly a whitespace suffix and leaves a result that does not end with whitespace. |
| Text.StripSpec | si507_waiver.py:91 | `strip()` yields the slice of the text between a whitespace prefix and a whitespace suffix, and neither of its ends is whitespace. |
| Text.Strip | si507_waiver.py:91 | `strip()` is never longer than its input, and neither end of a non-empty result is whitespace. |
| Text.Lower | si507_waiver.py:91 | Lower-casing keeps the length. |
| Text.LowerIdempotent | si507_waiver.py:174 | Lower-casing twice is lower-casing once, so a typed name in any case finds the lower-cased key. |
| Text.IsDecimal | si507_waiver.py:192 | `isdecimal()` holds for non-empty strings of digits only. In particular neither command word `exit` nor `back` is decimal, so the order of the checks at 188-192 does not change the outcome. |
| Text.DecimalValue | si507_waiver.py:192 | The value of a digit string read in base ten is 0 exactly when every digit is `0`, so an option of zeros selects no site. |
| Text.ParseInt | si507_waiver.py:192 | `int(option)` on a digit string raises exactly when the string has more than 4300 digits, leading zeros included, and otherwise gives its base-ten value. |
| Text.Decimal | si507_waiver.py:183 | `str(n)` is all decimal digits, with no leading zero except for 0 itself, for `n` of at most 4300 digits. `str` raises beyond that, but no listing number gets there. |
| Text.DecimalRoundTrip | si507_waiver.py:192 | `int(str(n)) == n` for every natural `n` whose `str` has at most 4300 digits, the range where both conversions succeed. |
| Menu.ChooseState | si507_waiver.py:172-178 | The state page is opened exactly when the input is not `exit` and its lower-cased form is a key, and the page opened is that key's URL. |
| Menu.StateNameOpensItsPage | si507_waiver.py:174-178 | Typing a menu link's text in any letter case opens the page of the last link with that text. |
| Menu.ChooseSite | si507_waiver.py:188-194 | A site is chosen exactly when the option is all decimal digits, has at most 4300 of them, and `1 <= int(option) <= len(sites)`. The chosen index `int(option)-1` is then within the list. A decimal option of more than 4300 digits raises `ValueError`, exactly as `int` does. |
| Menu.ListingLine | si507_waiver.py:183 | Listing line `i` is `[`, the number `i+1`, `] ` and the site's summary: the number sits right after the bracket and the line ends with `info()`. |
| Menu.ListedNumberSelects | si507_waiver.py:182-194 | The number printed in listing line `i` selects site `i`, whenever that number has at most the 4300 digits `int` reads back. |
| Menu.Shown | si507_waiver.py:197-208 | A field holding a non-empty string is printed as itself. A null or empty field is printed as its fallback, so the part shown is never empty. |
| Menu.PlaceLine | si507_waiver.py:196-208 | A place line starts with `- `, the name and ` (`, and its length is that of the name and the three parts shown plus nine characters of punctuation. |
| Menu.PlaceLineLayout | si507_waiver.py:196-208 | A place line is `- name (category): address, city`. Each part sits at its fixed position and is never empty, with the fallbacks used for null or empty fields. |
| Menu.NullAndEmptyPrintAlike | si507_waiver.py:197-208 | A null field and an empty field print the same line. |
| Menu.PrintedCount | si507_waiver.py:195 | The loop prints at most `resultsCount` lines and no more than there are results. |
| Menu.PlaceLinesOf | si507_waiver.py:195-209 | Line `i` is the place line of result `i`, for each result up to the printed count. |
| Menu.PlaceLines | si507_waiver.py:195-209 | The printing loop produces `PlaceLinesOf`. It completes exactly when `resultsCount` does not exceed the number of results; otherwise the index raises. |
| Menu.DetailAsWritten | si507_waiver.py:194-209 | As written, the detail branch lists places only when a body came back and its count fits the results, and the lines listed are then the place lines of the decoded response. A site without a zip code raises. |
| Menu.SiteWithoutZipRaises | si507_waiver.py:194-195 | A site with an empty zip code makes no request and, as written, ends the session with an exception. |
| Menu.DetailSearch | si507_waiver.py:194-209 | Corrected detail branch: a site without a zip code lists no places. It raises exactly on a transport failure or a count past the results. Otherwise it is as written. |

## Left out

- HTTP transport: `requests.get` is the `Network` parameter. Timeouts and hangs are not modelled, and a transport failure is a returned `None` rather than an exception.
- JSON serialisation and file I/O: `json.load`, `json.dump` and `json.loads` are not modelled. The backing file is the ghost table it holds, and `filename` is kept but not interpreted. A write that fails part-way is not modelled, since `json.dump` is taken to succeed. A backing file that parses to anything other than an object mapping strings to strings (such as `[]`, `null` or `{"u": 1}`) is outside the model. The program would load it without error and fail later, but it only ever writes such objects itself.
- HTML parsing: `get_site_instance` and the BeautifulSoup queries of `build_state_url_dict` and `get_sites_for_state` are parameters (`siteOf`, `anchorsOf`, `parkHrefs`). Their own failure modes (a missing tag raising `AttributeError`) are not modelled.
- The decoding of the MapQuest body is the `decode` parameter of `Menu.DetailAsWritten`. A body that is not valid JSON, or lacks the expected fields, is not modelled.
- Console I/O: `input`, `print` (including the "Using cache" / "Fetching" diagnostics, the list title and its dashed rule) and `exit` are not modelled. Only the decisions and the lines built are.
- The `secrets` module is replaced by an `apiKey` string parameter. The global `cache = Cache('temp.json')` is replaced by an explicitly passed `Cache` object.
- Text.Lower: lower-cases ASCII letters only, where Python's `str.lower` covers all of Unicode.
- Text.Decimal: is total, where CPython's `str` raises `ValueError` for an integer of more than 4300 digits. No listing number at line 183 comes near that limit.
- Text.IsDecimal: holds for ASCII digits only, where Python's `str.isdecimal` also holds for other Unicode decimal digits.
- Menu.ChooseSite: accepts ASCII digits only, where Python's `str.isdecimal` and `int` also accept other Unicode decimal digits. It also takes the interpreter's digit limit for `int` to be CPython's default of 4300. Interpreters without the limit, or set to another value, are not modelled.
- Menu.DetailAsWritten: keeps only the outcome of an interrupted listing (`Raises`), not the lines printed before the exception.

## Findings

| source | as written | input that shows it | evidently intended | confidence | as-written member | corrected member |
|---|---|---|---|---|---|---|
| si507_waiver.py:194-195 | `get_nearby_places` returns `None` for a site whose zip code is empty, and the loop evaluates `nearbyPlaces['resultsCount']` unconditionally, raising `TypeError` and ending the session | choosing a listed site whose page has no postal address (`zipcode == ''`) | after "No zip code", list no places and return to the prompt | not executed | Menu.DetailAsWritten, Menu.SiteWithoutZipRaises | Menu.DetailSearch |
