# Pixu client core, modelled in Dafny

Pixu is a small asynchronous client for pixiv: it signs its requests with a session cookie,
finds a user by nickname on the search page, lists the user's artworks, reads an artwork's
metadata, derives the original-resolution image URL from the artwork's `updateDate`
timestamp and downloads the image. This project models the deterministic core around those
requests, all of it in `pixu.py`:

- `digits.dfy` (`Digits`): ASCII digit runs, Python's `int(...)` on them and `str(n)`.
- `update_date.dfy` (`UpdateDate`): the `updateDate` pattern with its start-anchored match,
  its six named groups, and the calendar range check `datetime(...)` applies to them.
- `user_links.dfy` (`UserLinks`): `findall` of the user-link pattern and `list(set(...))`.
- `endpoints.dfy` (`Endpoints`): the fixed URL templates and the image URL.
- `artwork_info.dfy` (`ArtworkInfo`): `get_artwork_info` on an already decoded response body.
- `retry.dfy` (`Retry`): the `retries` decorator as written, and the policy it evidently meant.
- `client.dfy` (`Client`): `settings`, and `Pixu.__init__` choosing a header dict and writing the
  cookie into it in place; dicts are objects, so the aliasing of the caller's dict or of the
  shared default dict is visible.
- `wrappers.dfy` (`Wrappers`): `Option` and `Result`.

Responses are given as values: the search page as its text, the artwork-info response as the
map its `body` object decodes to. An operation that can raise is modelled as a function
`op: nat -> Attempt<T>` saying what its `k`-th call returns or that it raises.

Two behaviours of the code are worth knowing before reading the model:

- The retry decorator's log text speaks of "retrying..." and of failing "after {retries} retry
  attempts" (`pixu.py:30-34`), but the `return` at `pixu.py:36` closes the `except` arm, so the
  operation is called at most once (see Findings).
- `Pixu.__init__` writes the cookie into the dict it picked, which is the caller's own dict or the
  module-level default dict. Every client built without headers shares that default dict, so a
  second such client changes the cookie the first one sends (`Client.SecondDefaultClient`).

## Model

| member | source | states |
|---|---|---|
| `Digits.RunLength` | pixu.py:50-51 | the length of the longest all-digit prefix: everything before it is a digit and the next character is not, which is where a greedy `\d+` stops |
| `Digits.Value` | pixu.py:95 | `int(v)` on a digit string: the value is zero exactly when every digit is `0` |
| `Digits.IntToString` | pixu.py:92 | `str(n)`: for `n >= 0` a non-empty digit run that reads back as `n` with no leading zero (unless it is `0`), for negative `n` a minus sign before such a numeral of `-n` |
| `Digits.ValueOfDecimal` | pixu.py:92 | reading the decimal numeral of `n` back gives `n` |
| `UpdateDate.Group` | pixu.py:50-51 | a successful group split returns a non-empty digit run and the text after the literal, and the input is exactly run + literal + rest |
| `UpdateDate.Parse` | pixu.py:94 | `update_date_pattern.match(...)` followed by `groupdict()`: a successful parse returns six non-empty digit runs |
| `UpdateDate.ParseFormat` | pixu.py:50-52 | round trip: for any six non-empty digit strings and any suffix, parsing `Y-M-DTH:Mi:S+09:00` followed by the suffix returns exactly those six strings |
| `UpdateDate.ParseSound` | pixu.py:94 | a successful parse returns six digit runs whose pattern text is a prefix of the input |
| `UpdateDate.ParseIffMatches` | pixu.py:94 | the parse succeeds exactly when the pattern matches at the start of the text, and then returns the one set of groups that matches |
| `UpdateDate.ParseRejects` | pixu.py:94 | a text that does not begin with the six-group pattern and `+09:00` gives `None`, never partial fields |
| `UpdateDate.MakeDateTime` | pixu.py:95 | the date is built exactly when the groups' integer values are within `datetime`'s ranges, and then holds those values |
| `UserLinks.MatchAt` | pixu.py:44 | a match at the start of the text captures a non-empty digit run, and the text is exactly `<a href="/users/` + id + `"` + rest |
| `UserLinks.MatchAtOf` | pixu.py:44 | a real anchor `<a href="/users/ID"` with a digit-run `ID` is matched, capturing all of `ID` and leaving the text after the quote |
| `UserLinks.MatchAtIffAnchor` | pixu.py:44 | the pattern captures `ID` at a position exactly when an anchor for `ID` starts there |
| `UserLinks.FindAll` | pixu.py:44 | every id the scan collects is a non-empty digit run |
| `UserLinks.NoMatchInside` | pixu.py:44 | no match of the pattern can start inside another match |
| `UserLinks.FindAllCaptures` | pixu.py:44 | the left-to-right non-overlapping scan collects exactly the set of ids the pattern captures at any position of the text |
| `UserLinks.RemoveRepeat` | pixu.py:69 | `list(set(xs))`: no element twice, and membership the same as in `xs` |
| `UserLinks.SearchUser` | pixu.py:69-76 | `remove_repeat(user_link_pattern.findall(text))`: no id twice, and every id a digit run |
| `UserLinks.SearchUserSpec` | pixu.py:69-76 | an id is returned exactly when an anchor `<a href="/users/ID"` with that digit run starts somewhere in the page, and the returned set equals the set of captures |
| `UserLinks.SearchUserEmpty` | pixu.py:76 | the result is the empty list exactly when no anchor `<a href="/users/ID"` starts anywhere in the page |
| `UserLinks.SearchUserCollectsAnchor` | pixu.py:44-76 | a page containing `<a href="/users/42"` at any position makes `search_user` return `42` |
| `Endpoints.UserArtworksUrl` | pixu.py:46-47 | the artwork-listing URL template; its partner `Endpoints.UserArtworksUrlInjective` shows the id is recoverable |
| `Endpoints.ArtworkInfoUrl` | pixu.py:48-49 | the artwork-info URL template; its partner `Endpoints.ArtworkInfoUrlInjective` shows both ids are recoverable |
| `Endpoints.ImageUrl` | pixu.py:97-99 | the image URL template; its partner `Endpoints.ImageUrlInjective` shows the groups and id are recoverable |
| `Endpoints.UserArtworksUrlInjective` | pixu.py:46-47 | distinct user ids give distinct `.../ajax/user/{user_id}/profile/all?lang=zh` URLs |
| `Endpoints.ArtworkInfoUrlInjective` | pixu.py:48-49 | the `.../ajax/user/{user_id}/illusts?ids%5B%5D={artwork_id}&lang=zh` URL determines both ids when the user id holds no `/` |
| `Endpoints.IdsKeyIsPercentEncoded` | pixu.py:49 | `ids%5B%5D` is `ids[]` percent-encoded as in section 2.1 of RFC 3986 |
| `Endpoints.ImageUrlInjective` | pixu.py:97-99 | the image URL determines the six captured timestamp strings and the artwork id |
| `ArtworkInfo.Key` | pixu.py:92 | `str(artwork_id)`: for an integer id its decimal numeral without leading zeros (with `-` when negative), for a string id the string itself |
| `ArtworkInfo.GetArtworkInfo` | pixu.py:92-100 | on success the record is `body[str(id)]`, it has a text `updateDate` that begins with valid groups, the date holds their values and the URL is built from those groups |
| `ArtworkInfo.GetArtworkInfoFromText` | pixu.py:92-99 | for an `updateDate` of six digit runs, `+09:00` and any suffix, with in-range values, the result is the raw record, the date and `https://i.pximg.net/img-original/img/Y/M/D/H/Mi/S/{id}_p0.jpg` with the digit strings verbatim |
| `ArtworkInfo.GetArtworkInfoFailures` | pixu.py:92-95 | it fails with a missing artwork exactly when `str(id)` is not a key of `body`, with a missing or non-text `updateDate` exactly when those hold, with a mismatch exactly when the pattern does not match, and out of range exactly when the parsed values fail the `datetime` check |
| `ArtworkInfo.ExampleImageUrl` | pixu.py:97-99 | `2021-05-03T10:20:30+09:00` for artwork 12345 gives `.../img/2021/05/03/10/20/30/12345_p0.jpg`, zero padding kept |
| `Retry.RetryWrapper` | pixu.py:21-38 | the decorator's loop, as written, returns the first call's value, or `None` after its first `Exception`, or `None` without calling when `retries <= 0` |
| `Retry.AsWritten` | pixu.py:25-36 | the as-written wrapper calls the operation at most once, not at all exactly when `retries <= 0`, and returns a value exactly when that one call returns |
| `Retry.AsWrittenIsOneAttempt` | pixu.py:25-36 | the wrapper as written equals the retry policy capped at one attempt |
| `Retry.AsWrittenGivesUpAfterFirstFailure` | pixu.py:18-36 | for any `retries >= 2` (the configured count is 3) and an operation that always raises, the wrapper as written makes one call and the intended policy `retries` calls, both returning `None` |
| `Retry.IntendedSpec` | pixu.py:25-34 | the intended policy returns the first success within `retries` calls, every earlier call having raised; without one it makes all the calls and returns `None` |
| `Retry.RetryWrapperIntended` | pixu.py:25-35 | the corrected loop computes the intended policy |
| `Client.HeaderDict.Update` | pixu.py:57 | `dict.update({key: value})` sets that key and keeps every other entry |
| `Client.ChooseBase` | pixu.py:56 | `headers if headers else settings["default_headers"]`: an absent or empty dict falls back to the defaults |
| `Client.Settings.constructor` | pixu.py:11-19 | the default headers are exactly `User-Agent` and `Referer`, and `retries` is 3 |
| `Client.EffectiveHeaders` | pixu.py:56-57 | the effective headers map `Cookie` to the cookie, keep every other key of the chosen base, and add no key but `Cookie` |
| `Client.DefaultClientHeaders` | pixu.py:11-17 | with `headers` absent or empty, a client over the module defaults sends exactly `User-Agent`, `Referer` and the cookie |
| `Client.OwnHeadersReplaceDefaults` | pixu.py:56 | a non-empty `headers` replaces the defaults entirely |
| `Client.Pixu.constructor` | pixu.py:54-64 | the client keeps the caller's dict when it is non-empty and the shared default dict otherwise, that dict's entries become the effective headers, `get_args` holds the same dict, and the dict not chosen is unchanged |
| `Client.SecondDefaultClient` | pixu.py:56-57 | two clients built without headers share one dict, and the second cookie is the one both send |

## Findings

| source | as written | input that shows it | evidently intended | confidence | as-written member | corrected member |
|---|---|---|---|---|---|---|
| pixu.py:25-36 | the `return` that closes the `except` arm leaves the loop after the first exception, so no call is ever repeated | an operation that always raises, wrapped with `retries = 3` (the configured count) or any `retries >= 2`: one call, then `None` | call again after each exception, up to `retries` calls, as the "retrying..." and "failed after N retry attempts" messages say | high, not executed | `Retry.AsWrittenGivesUpAfterFirstFailure` | `Retry.RetryWrapperIntended` |

## Left out

- Networking through `httpx` (`AsyncClient`, `get`, `stream`, `iter_bytes`), proxies and the search query parameters `nick` and `s_mode`: I/O through a library that is not part of this model. Responses are given as values.
- `async`/`await` and `asyncio.gather`: concurrency is not modelled. The wrapper is modelled as a synchronous loop; that the decorated functions return coroutines, whose exceptions surface only when awaited outside the wrapper, is not modelled.
- JSON decoding (`r.json()`) and the `r_json["body"]` lookup: `get_artwork_info` is modelled on the decoded `body` map. A `body[str(id)]` value that is not an object is not represented.
- `get_artworks_from_user`: its only logic is the key lookup `r_json["body"]["illusts"].keys()` on decoded JSON, which is not modelled.
- `download_image` and `download_artwork`: directory creation and file writes are OS I/O; `download_artwork` only composes I/O calls.
- The `__main__` demonstration and the configuration file it loads.
- The log messages the wrapper prints.
- `repr(r.text)` before the user-link scan: the scanned text is taken as given.
- Python's Unicode-aware `\d` and `int(...)` on non-ASCII digits: only ASCII digits are modelled.
- Digits.Value: does not model CPython's limit on integer-string conversion (4300 digits by default), so a timestamp group longer than that, which makes `int(v)` raise `ValueError`, is read as its number here.
- ArtworkInfo.GetArtworkInfo: because of that, a group of more than 4300 digits that the source rejects (for example a 4301-digit zero-padded month) yields `Success` here rather than a failure.
- Digits.IntToString: does not model the same limit for `str(n)`, which raises for an integer of more than 4300 digits; its numeral is returned instead.
- ArtworkInfo.Key: inherits that gap for `str(artwork_id)` of an integer id of more than 4300 digits.
- Retry.RetryWrapper: an operation raising a `BaseException` that is not an `Exception` (`KeyboardInterrupt`, `SystemExit`, `asyncio.CancelledError`) propagates through the wrapper; the model's `Raised` stands only for an `Exception`.
- `datetime(...)`: modelled as its range check (years 1 to 9999, Gregorian month lengths, hours, minutes, seconds). Time zones are not modelled, and the `OverflowError` for huge values is folded into the same out-of-range failure.
- `UserLinks.RemoveRepeat`: Python's set iteration order is unspecified; the model keeps first occurrences, and no contract depends on that order.
- The `retries` parameter of `Pixu.__init__`, stored only in the unused class attribute `Pixu.retries`.
