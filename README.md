# Car-rental search link

A model of the deterministic core of a small car-rental search demo: the
function that builds a Kayak car-rental search link (`kayak_search`), and the
part of the app's search action that checks the user's inputs and composes the
route before calling it.

- `kayak.dfy` (module `Kayak`): the link builder. The route string is
  lower-cased and every space becomes `-`. The result and the two date
  strings are then interpolated into
  `https://www.kayak.com/cars/{route}/{pickup}/{dropoff}?sort=price_a`.
  Nothing is escaped and no input is rejected. Next to the builder sits a
  link reader, `ParseSearchUrl`, the builder's inverse. It takes the prefix
  off, ends the path at the first `?`, and splits the path on `/`.
- `dates.dfy` (module `Dates`): the `datetime.date` values the app works with.
  It covers their validity, their chronological comparison (lexicographic on
  year, month, day), and their `strftime("%Y-%m-%d")` rendering. Its inverse
  is `ParseDate`.
- `app.dfy` (module `App`): the search action as a pure function `Search`. It
  returns `Rejected(MissingLocation)` when a location is empty. Otherwise it
  returns `Rejected(ReturnNotAfterPickup)` when the pickup date is on or after
  the return date. Otherwise it returns `Generated(url)`, the link for route
  `<from>-to-<to>` and the two formatted dates. `App.ErrorMessage` maps the
  two errors to the texts the app shows with `st.error` (app.py:36 and
  app.py:40).
- `wrappers.dfy` (module `Wrappers`): the `Option` type returned by the two
  readers.

Case folding is ASCII only. `Lower` maps `A`..`Z` to `a`..`z` and keeps every
other character. Python's `str.lower` applies full Unicode case mapping, which
can change other letters and even the length of the string. The model states
only the ASCII behaviour.

Splitting the generated path on `/` gives back the normalised route and the
two dates exactly when the route and the dates contain no `/` and no `?`,
since the code escapes nothing. `Kayak.ParseKayakSearch` proves the round trip
under that condition, and `Kayak.ParseKayakSearchOnlyWhenClean` proves that
the condition is necessary. `Kayak.SlashInRouteSplitsInFour` and
`Kayak.SlashInRouteAddsSegment` show what a single `/` inside the route does:
the path splits into four segments, and the link reads back as `None`.

## Model

| member | source | states |
|---|---|---|
| `Kayak.NormalizeAt` | kayak.py:10 | normalisation keeps the length and works position by position: `A`..`Z` become their lower-case letters, a space becomes `-`, every other character is kept; the result holds no space and no upper-case letter |
| `Kayak.NormalizeFixpoint` | kayak.py:10 | a route is left unchanged by normalisation if and only if it has no upper-case ASCII letter and no space |
| `Kayak.NormalizeIdempotent` | kayak.py:10 | normalising an already normalised route returns it unchanged |
| `Kayak.NormalizeConcat` | kayak.py:10 | normalisation distributes over concatenation |
| `Kayak.NormalizeKeepsAbsent` | kayak.py:10 | normalisation introduces no character (other than a lower-case letter or `-`) that the route did not already contain |
| `Kayak.KayakSearchShape` | kayak.py:10-11 | the link starts with `https://www.kayak.com/cars/` and ends with `?sort=price_a`; between them come the normalised route, one `/`, the pickup string verbatim, one `/`, and the drop-off string verbatim; its length is the sum of those parts |
| `Kayak.EmptyRoute` | kayak.py:10-11 | an empty route is not rejected and gives `https://www.kayak.com/cars//{pickup}/{dropoff}?sort=price_a` |
| `Kayak.ParseLink` | kayak.py:11 | a link made by the template from three segments free of `/` and `?` reads back as exactly those three segments |
| `Kayak.ParseKayakSearch` | kayak.py:10-11 | when the route and the dates hold no `/` and no `?`, the link reads back as the normalised route, the pickup string and the drop-off string, with the sort query |
| `Kayak.ParseSearchUrlSound` | kayak.py:11 | whatever the reader reads back as three segments is exactly the template around those segments, and none of them holds a `/` or a `?` |
| `Kayak.ParseKayakSearchOnlyWhenClean` | kayak.py:10-11 | the link reads back as the normalised route and the two date strings only when neither the route nor the dates hold a `/` or a `?` |
| `Kayak.SlashInRouteSplitsInFour` | kayak.py:10-11 | a route `a/b` with a single `/` is passed through unescaped: the path splits into the four segments `normalise(a)`, `normalise(b)`, pickup and drop-off |
| `Kayak.SlashInRouteAddsSegment` | kayak.py:10-11 | so the link for such a route, with dates free of `/` and `?`, reads back as `None` |
| `Kayak.ScenarioBostonToNewHampshire` | kayak.py:10-11 | `Boston-to-New Hampshire` with 2024-06-01 and 2024-06-05 gives `https://www.kayak.com/cars/boston-to-new-hampshire/2024-06-01/2024-06-05?sort=price_a` |
| `Kayak.ScenarioMiami` | kayak.py:10-11 | `Miami` with the same dates gives `https://www.kayak.com/cars/miami/2024-06-01/2024-06-05?sort=price_a` |
| `Dates.CompareIsChronological` | app.py:39 | date comparison is a strict total order; `pickup >= return` holds exactly when the dates are equal or the return date is earlier, i.e. exactly when `pickup < return` fails |
| `Dates.PadShape` | app.py:51-52 | zero-padding a number below 10^width gives exactly `width` decimal digits |
| `Dates.DecimalValuePad` | app.py:51-52 | reading the padded digits back gives the number |
| `Dates.FormatDateShape` | app.py:51-52 | a formatted date is ten characters, with `-` at positions 4 and 7 and digits everywhere else, so it holds no `/` and no `?` |
| `Dates.ParseFormatDate` | app.py:51-52 | a formatted date reads back as the same date |
| `Dates.FormatDateInjective` | app.py:51-52 | two different dates never format the same |
| `App.MissingLocationRejected` | app.py:35-37 | the search is rejected for a missing location if and only if the origin or the destination is empty |
| `App.LocationCheckedFirst` | app.py:35-41 | when a location is empty and the date range is inverted as well, the error reported is the missing location |
| `App.DateRangeRejected` | app.py:39-41 | with both locations given, the search is rejected for its dates if and only if the return date equals the pickup date or precedes it; equal dates are rejected |
| `App.SearchAccepted` | app.py:35-41 | a link is produced if and only if both locations are non-empty and the return date is strictly later than the pickup date |
| `App.NormalizeRoute` | app.py:55 | the normalised route of `<from>-to-<to>` is the normalised origin, `-to-`, and the normalised destination |
| `App.AcceptedLink` | app.py:51-59 | an accepted search returns `kayak_search(from + "-to-" + to, pickup_str, return_str)`, where the two strings are the ten-character `YYYY-MM-DD` renderings of the dates |
| `App.AcceptedLinkReadsBack` | app.py:51-59 | when the locations hold no `/` and no `?`, an accepted link reads back as the normalised `<from>-to-<to>` route and the two date strings, and those read back as the pickup and return dates |
| `App.DefaultSearch` | app.py:22-59 | the default locations `Boston` and `New Hampshire` with 2024-06-01 to 2024-06-05 give `https://www.kayak.com/cars/boston-to-new-hampshire/2024-06-01/2024-06-05?sort=price_a` |

## Left out

- Unicode case mapping. `Kayak.Lower` folds ASCII `A`..`Z` only. Python's `str.lower` also maps non-ASCII letters, and can change the length of the string.
- The Streamlit page: configuration, columns, inputs, button, spinner, markdown cards, expander, and info and success boxes (app.py:16-31, app.py:33, app.py:49, app.py:104-159). These are presentation only.
- The Ollama connectivity check that runs after validation and before the link is built (app.py:7-13, app.py:44-46). It is network I/O. In the app, a failed check stops the action before any link exists. `App.Search` produces the link whenever validation passes.
- The Ollama client, its `invoke` call, and the prompt text given to it (app.py:66-102). These are a foreign LLM call and free-form text.
- The generic `except` handlers that display errors (app.py:61-63, app.py:161-167). `kayak_search` cannot raise on string inputs.
- The `datetime.now()` defaults of the date inputs (app.py:29-31). They depend on the wall clock, so the dates are parameters of `App.Search`.
- main.py. It is declarative agent/task configuration for a third-party framework, plus environment lookup and an LLM client. It has no bespoke logic.
- `Dates.FormatDate` always pads the year to four digits. Some C libraries write `%Y` for years below 1000 without padding. Streamlit's date input by default offers only dates within ten years of its initial value, so such years do not occur there.
- `App.Search` requires valid dates. The date inputs always return a real `datetime.date`, so the error path for invalid dates belongs to no caller.
- Percent-encoding and date-format validation. The source does neither, so the model does not add them.
