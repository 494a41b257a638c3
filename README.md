# Weather dashboard front end: the deterministic core, in Dafny

The dashboard is a browser page (`Js/main.js`) that fetches a national
summary, a list of locations and per-location detail from a JSON API and
renders them. Almost all of it is DOM glue. This project models the logic
that works on the in-memory location list (`allLocations`):

- **Search** (`runSearch`). The query is normalised as `(q || '').trim().toLowerCase()`.
  A blank query shows the first 20 locations. Any other query keeps, in list
  order, every location whose lower-cased city, lower-cased state or decimal
  zip code contains it (`LocationSearch`, built on the string primitives in `Text`).
- **Image tags** (`renderImageTags`). These are the distinct, non-empty image names, in order of
  first occurrence, each with a hint line (`ImageTags`).
- **Shuffle** (`shuffle`). An in-place Fisher–Yates pass over an array. `Math.random`
  becomes a nondeterministic pick of `j` in `[0, i]` (`Shuffle`).
- **Lookup by id** (the start of `showDetail`). `find` with `===` gives the first
  location with the id. Without one, the page shows "not found" and requests nothing (`Lookup`).
- **Renderers as view-models** (`renderLocations`, `renderDetail`). The list is
  "No results" or one tile per location, in order. The detail view shows at most 8
  hourly entries (`Views`).
- **Image fallback** (`setImgWithFallback`). An image element with a one-shot
  `onerror` handler that installs the placeholder at most once (`Fallback`).
- **Page state**. The global list, the list panel, the tag panel and the
  detail panel, with the handlers that update them (`Dashboard.Page`). A
  successful load replaces the list wholesale, and a shuffle permutes it in
  place. `Page.Valid()` says every tile on screen was rendered, in order, from
  locations that are in the list.

The string model: strings are `seq<char>`. `trim` strips exactly ECMAScript's
WhiteSpace and LineTerminator characters. `toLowerCase` maps the ASCII letters only.
`String(zip)` is the decimal text of an integer, with a leading `-` when negative.
Location ids are numbers or strings (`Locations.Id`), so `===` never equates
`1` with `"1"`. An absent image field is `None`. It prints as `undefined` in
image paths and is falsy for the tag filter, as is the empty string.

The code keeps first-occurrence order (a `Set` spread into an array), and the model proves that order.

## Model

| member | source | states |
|---|---|---|
| Text.TrimStartSpec | Js/main.js:165 | trimming the front keeps a suffix that does not start with whitespace, and only whitespace is dropped |
| Text.TrimEndSpec | Js/main.js:165 | trimming the end keeps a prefix that does not end with whitespace, and only whitespace is dropped |
| Text.TrimSplits | Js/main.js:165 | the input is whitespace, then the trimmed text, then whitespace; the trimmed text neither starts nor ends with whitespace |
| Text.TrimEmptyIff | Js/main.js:165-166 | the trimmed query is empty exactly when the query is all whitespace |
| Text.Trim | Js/main.js:165 | `trim()` is `TrimEnd(TrimStart(s))`; its meaning is stated by `TrimSplits` and `TrimEmptyIff` |
| Text.LowerChar | Js/main.js:165 | the lower-casing of one character; stated by `LowerCharIff` and `ToLowerSpec` |
| Text.ToLower | Js/main.js:165 | `toLowerCase()` keeps the length; its letters are stated by `ToLowerSpec` and `ToLowerIgnoresCase` |
| Text.ToLowerSpec | Js/main.js:165 | lower-casing turns each capital into the letter at the same place of the lower-case alphabet, changes no other character, leaves no capital and is idempotent |
| Text.LowerCharIff | Js/main.js:165 | two characters lower-case alike exactly when they are the same letter up to ASCII case |
| Text.ToLowerIgnoresCase | Js/main.js:165 | two strings lower-case to the same text exactly when they are equal up to ASCII case |
| Text.Contains | Js/main.js:170 | `includes`; its meaning is stated by `ContainsIff` |
| Text.ContainsIff | Js/main.js:170 | `includes` holds exactly when the query occurs as a contiguous slice at some position |
| Text.Digits | Js/main.js:170 | `String(zip)` for a non-negative zip is a non-empty run of decimal digits that starts with `0` only when it is exactly "0" |
| Text.DigitsRoundTrip | Js/main.js:170 | reading the digits back gives the number |
| Text.Decimal | Js/main.js:170 | `String(zip)` is the digits of the zip for a non-negative zip and `-` followed by the digits of its magnitude for a negative one; with `Digits` and `DecimalRoundTrip` this fixes the exact text the search matches against |
| Text.DecimalRoundTrip | Js/main.js:170 | parsing `String(n)` gives `n` back, negatives included, so distinct zip codes print differently |
| LocationSearch.NormalizeQuery | Js/main.js:165 | `(q \|\| '').trim().toLowerCase()`; stated by `NormalizeQuerySpec` |
| LocationSearch.NormalizeQuerySpec | Js/main.js:165-166 | the normalised query is empty exactly for an absent, empty or whitespace-only query, and it has no upper-case letter |
| LocationSearch.Filter | Js/main.js:170 | `filter` returns no more entries than it was given, each of them from the input and passing the test |
| LocationSearch.FilterSelects | Js/main.js:170 | `filter` keeps exactly the passing entries, at strictly increasing positions of the input, so relative order is preserved |
| LocationSearch.Search | Js/main.js:164-172 | every location the search shows is in the full list |
| LocationSearch.SearchBlankQuery | Js/main.js:165-168 | an absent or blank query shows exactly the first min(N, 20) locations, in order |
| LocationSearch.SearchSelectsMatches | Js/main.js:165-171 | a non-blank query shows exactly the locations whose lower-cased city, lower-cased state or decimal zip contains the normalised query, in list order, with no cap |
| LocationSearch.Matches | Js/main.js:170 | the filter callback; stated by `MatchesIff` and `MatchesIgnoresCase` |
| LocationSearch.MatchesIff | Js/main.js:170 | a location matches exactly when the query occurs at some position of its lower-cased city, lower-cased state or zip text |
| LocationSearch.MatchesIgnoresCase | Js/main.js:170 | locations whose city and state differ only in ASCII case and whose zips agree match the same queries |
| LocationSearch.SearchByZipExample | Js/main.js:164-172 | searching "89501" in a list holding only Reno, NV 89501 returns exactly that location |
| Locations.HasImage | Js/main.js:115 | the `filter(Boolean)` test on an image field: present and not empty; used by `ImageNamesSelects` and `TagsSpec` |
| Locations.ImageText | Js/main.js:87 | the text `${loc.image}` puts into an image path, `undefined` when absent; used by `Views.TileOf` and `Views.RenderDetailSpec` |
| ImageTags.ImageNames | Js/main.js:115 | the mapped and `filter(Boolean)`-ed image names are no more than the locations and contain no empty name |
| ImageTags.ImageNamesSelects | Js/main.js:115 | the image names are the images of the locations at strictly increasing positions, and those positions are exactly the locations with a truthy image: repeats kept, list order preserved |
| ImageTags.ImageNamesIff | Js/main.js:115 | a name is among the image names exactly when some location carries it as a truthy image |
| ImageTags.Dedup | Js/main.js:115 | the `Set` spread has no duplicates and holds exactly the elements of its input |
| ImageTags.DedupInFirstOccurrenceOrder | Js/main.js:115 | the de-duplicated names come in the order of their first occurrences |
| ImageTags.FirstCarrier | Js/main.js:115 | the first position in the location list whose truthy image is the given name |
| ImageTags.FirstCarrierIsFirstName | Js/main.js:115 | the first location carrying a name is the one behind that name's first occurrence among the image names |
| ImageTags.Tags | Js/main.js:115 | `[...new Set(names)]` over the image names; stated by `TagsSpec` |
| ImageTags.TagsSpec | Js/main.js:114-115 | the tags have no duplicates and no empty name; a name is a tag exactly when some location has it as a truthy (present, non-empty) image; tags come in the order in which their first carriers appear in the location list |
| ImageTags.TagItemFor | Js/main.js:119 | the list item's text for a tag; its use is stated by `RenderImageTags` |
| ImageTags.RenderImageTags | Js/main.js:114-122 | one list item per tag, in tag order, each with its "put your file in /images/…" hint |
| Lookup.Find | Js/main.js:125 | `find` returns nothing exactly when no location has the id, and otherwise a location of the list with that id |
| Lookup.FindFirst | Js/main.js:125 | the location `find` returns is the first one in the list with the id |
| Lookup.Heading | Js/main.js:130 | the `${loc.city}, ${loc.state}` text; it is both the detail heading (`StartDetailSpec`, `Page.ClickTile`) and the tile title (`Views.TileOf`) |
| Lookup.StartDetail | Js/main.js:124-131 | the synchronous outcome of `showDetail`; stated by `StartDetailSpec` |
| Lookup.StartDetailSpec | Js/main.js:124-131 | "not found" (and no request) exactly when no location has the id; otherwise a request for that id, headed by the first matching location's city and state |
| Views.TileOf | Js/main.js:79-95 | one tile's id, image with fallback, alt text, title and condition line; its use is stated by `RenderLocations` |
| Views.RenderLocations | Js/main.js:72-111 | an empty list renders "No results" and no tile; otherwise one tile per location, in order, each carrying the location's id, image with placeholder fallback, city, state, condition and temperature |
| Views.TileLeadsToLocation | Js/main.js:99-108 | a tile rendered from locations of the list, when clicked, finds a location with its id, so the detail view is not "not found" |
| Views.NextHours | Js/main.js:152 | `(d.hourly \|\| []).slice(0, 8)`; stated by `RenderDetailSpec` |
| Views.RenderDetail | Js/main.js:142-160 | the detail view-model; stated by `RenderDetailSpec` |
| Views.RenderDetailSpec | Js/main.js:142-160 | the hourly list is a prefix of the hourly forecast of length min(n, 8), empty when absent; the daily list is the whole daily forecast, empty when absent; the hero image falls back to the placeholder |
| Fallback.Load | Js/main.js:21-27 | the state `setImgWithFallback` leaves: the source set and the handler armed with the fallback; stated by `FallbackAppliedOnce` and `ImageElement.SetWithFallback` |
| Fallback.OnError | Js/main.js:23-26 | a load error with the handler armed installs the fallback and disarms the handler; with no handler it changes nothing |
| Fallback.AfterErrors | Js/main.js:23-26 | the state after n load errors; stated by `FallbackAppliedOnce` and `DisarmedIsStable` |
| Fallback.FallbackAppliedOnce | Js/main.js:21-27 | after any number n ≥ 1 of load errors the source is the fallback and no handler remains: the swap happens once |
| Fallback.DisarmedIsStable | Js/main.js:23-26 | once the handler is gone, further load errors change nothing |
| Fallback.ImageElement.constructor | Js/main.js:85 | a new image element has no source and no handler |
| Fallback.ImageElement.SetWithFallback | Js/main.js:21-27 | sets the source, arms the handler with the fallback and resets the swap count |
| Fallback.ImageElement.FireError | Js/main.js:23-26 | the element's new state is the error step of its old state, and the number of swaps never exceeds one |
| Shuffle.Swap | Js/main.js:30 | the destructuring swap keeps the length; `SwapSpec` states the rest |
| Shuffle.SwapSpec | Js/main.js:30 | the destructuring swap exchanges two entries, leaves the others alone and keeps the multiset |
| Shuffle.Run | Js/main.js:30 | replaying the recorded picks keeps the length |
| Shuffle.RunStep | Js/main.js:30 | one more pick in [0, i] for the next i is a valid record and adds exactly one swap of positions i and the pick |
| Shuffle.RunPermutes | Js/main.js:30 | whatever picks are made, the result is a permutation (same multiset) of the input |
| Shuffle.ShuffleInPlace | Js/main.js:30 | shuffles the same array in place, makes one pick in [0, i] for every i from the last index down to 1, and leaves a permutation of the old contents |
| Dashboard.Page.constructor | Js/main.js:18-197 | boot state: `allLocations = []` (line 18) and the list panel loading, which `loadLocations()` (line 59) puts up when the boot code calls it (line 197) |
| Dashboard.Page.BeginLoad | Js/main.js:58-59 | the list panel shows "Loading…"; nothing else changes |
| Dashboard.Page.LoadSucceeded | Js/main.js:60-66 | the response replaces `allLocations` wholesale; the list panel renders it and the tag panel holds one item per tag, with its hint line |
| Dashboard.Page.LoadRenderFailed | Js/main.js:64-68 | a renderer that throws after `allLocations = data` leaves the new list in place, the error in the list panel and the tag panel unchanged |
| Dashboard.Page.LoadFailed | Js/main.js:60-69 | a fetch, status or JSON failure (before `allLocations = data`) shows the error in the list panel; `allLocations` and the tags are kept |
| Dashboard.Page.RunSearch | Js/main.js:164-172 | the list panel renders the search result over the whole list; the list itself is unchanged |
| Dashboard.Page.ShuffleAll | Js/main.js:190-193 | the same list is permuted in place and its first min(N, 20) entries are rendered |
| Dashboard.Page.ShowDetail | Js/main.js:124-131 | for an unknown id the panel says "not found" and no request is made; otherwise the heading is the location's city and state, the panel shows loading and the id is requested |
| Dashboard.Page.ClickTile | Js/main.js:99-108 | clicking any tile on screen never gives "not found": the detail panel loads, the fetch for the tile's id starts, and the heading is that of the first location in the list with the tile's id (the tile's own location when ids are unique) |
| Dashboard.Page.DetailLoaded | Js/main.js:135-136 | the fetched detail replaces the detail panel |
| Dashboard.Page.DetailFailed | Js/main.js:137-139 | the detail panel shows the error |
| Dashboard.Page.CloseDetail | Js/main.js:185-188 | the close button restores the "Select a city" prompt |

## Left out

- Network I/O in `fetchNational`, `loadLocations` and `showDetail` (`fetch`, `res.ok`, `res.json()`). A load or detail fetch is split into the step that starts it and the steps that apply its success or its failure. The `_limit` count (50, or 200 for "load all") only goes into the request URL, so it is not modelled.
- Ordering of overlapping requests. The page has no guard against a stale response, and the model applies any completion whenever it arrives, as the page does.
- `renderNational` and the national banner, which are display formatting only, and the local file preview (`URL.createObjectURL`). These are browser features outside the location-list logic.
- Event wiring (search button, Enter key, load-all and shuffle buttons). The handlers themselves are `Page` methods.
- `Math.round` on temperatures. Temperatures and other readings are carried as unrounded display values.
- `Math.random` itself. Each pick is a nondeterministic index in `[0, i]`, so the model says nothing about the distribution of shuffles.
- HTML strings and DOM nodes. The renderers return view-model records carrying the data the markup shows.
- Full Unicode `toLowerCase`. Only ASCII letters are lower-cased.
- `String(zip)` for non-integer zip numbers, for magnitudes printed in exponent notation, and for zip codes that arrive as JSON strings. The model takes zip as an integer.
- A location whose city or state is missing, where `toLowerCase` would throw. The model takes both as strings.
- A JSON `null` image. It is treated like an absent one, so it prints as `images/undefined` in the model where the page prints `images/null`. Both are falsy for the tag filter.
- Which responses make the renderers throw after `allLocations = data` (a body that is not an array, a location without `current`). The model's locations always have every field, so `Page.LoadRenderFailed` is a step the caller chooses, and the partly drawn tiles before the error message are not modelled.
- Views.RenderDetailSpec: the detail hero image's inline `onerror` handler is kept only as the pair of source and fallback. Unlike the tiles' handler it does not disarm itself, and the model does not capture what repeated load errors do to it.
