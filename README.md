# spotics: lyric, track and cache logic in Dafny

spotics is a command-line tool. It reads the title, artist and album frames of
an audio file's ID3 tag and searches the Spotify Web API for the track. It
picks a track, either automatically or by asking the user. It then fetches
the track's synced lyrics from the Web Player's lyrics service and writes
them into the tag as LRC text.

This project models the pure parts of that pipeline and proves what they do:

- `Lrc` renders each lyric line as `[MM:SS.mmm] words`. The offset is split into
  minutes, seconds and milliseconds, and each part is zero-padded to a minimum
  width. It is proved that the split is lossless, that padding never cuts
  digits, that a time tag reads back to its offset, and that there is one
  output line per lyric line, in order. The `fmt` loop is a method proved
  against the rendering function.
- `SpotifyLyrics` and `WebPlayerResource` are the two lyric decoders. The
  first starts from the whole document; the second starts from the `lines`
  array. Each is a loop that pushes decoded lines and returns on the first
  bad element. Both are proved equal to an all-or-nothing specification. That
  specification keeps the length and order of the array, copies `words`
  verbatim and reads `startTimeMs` as `str::parse::<u64>` does. Round trips
  from encoded lines are proved too.
- `Decimal` holds Rust's decimal text for unsigned integers: the shortest
  `Display` text, zero padding to a width, and `str::parse::<u64>`. The
  parser accepts exactly an optional `+`, any number of zeros and the shortest
  digits of a value below 2^64. Both directions of that are proved.
- `WebApiResource` decodes a track object into `TrackInfo` (`id`, `name`,
  `artists[0].name`, `album.name`) and renders its display line.
  `WebApiSearch` renders the search query text and decodes a search response
  with the same all-or-nothing loop.
- `TokenCache` holds the credentials and cache records and the expiry test
  `expires_at < now`.
- `App` covers `main.rs`: building the query from the tag, picking the first
  track equal to the tag, and choosing between that and the user's pick by
  mode.

`Wrappers` (Option, Result, all-or-nothing traversal), `JsonValue` (the
parsed JSON value and `get`/`as_str`/`as_array`) and `Text` (splitting at a
separator) are helpers.

## Model

| member | source | states |
|---|---|---|
| `Lrc.CalcReadableTime` | src/lrc.rs:29-34 | seconds are below 60, milliseconds below 1000, and minutes·60000 + seconds·1000 + milliseconds equals the offset |
| `Lrc.CalcReadableTimeUnique` | src/lrc.rs:29-34 | any split of the offset with seconds below 60 and milliseconds below 1000 is the one returned, so the result is exactly (ms/60000, ms/1000 mod 60, ms mod 1000) |
| `Lrc.Timestamp` | src/lrc.rs:18-21 | the time tag is at least 11 characters long, from `[` to `]` |
| `Lrc.LrcLine` | src/lrc.rs:19-23 | one output line starts with the tag's `[`, ends with the newline `writeln!` adds, and is longer than the words by the tag and two characters |
| `Lrc.Render` | src/lrc.rs:17-24 | each lyric line adds at least 13 characters, and a non-empty text starts with `[` and ends with a newline |
| `Lrc.Fmt` | src/lrc.rs:15-26 | the loop of `fmt` produces exactly the rendering of the lines: one `[MM:SS.mmm] words` line with a newline per lyric line |
| `Lrc.RenderEmpty` | src/lrc.rs:17-26 | no lyric lines render as the empty text |
| `Lrc.RenderAppend` | src/lrc.rs:17-24 | rendering goes line by line in input order: the text of a + b is the text of a followed by that of b |
| `Lrc.RenderOne` | src/lrc.rs:19-23 | a single line renders as time tag, space, words, newline |
| `Lrc.RenderLineCount` | src/lrc.rs:17-24 | when no words contain a line break, the output has exactly one newline per lyric line |
| `Lrc.MinutesNotTruncated` | src/lrc.rs:21 | from 100 minutes on, the minutes are printed with all their digits (three or more); the width 2 is a minimum, not a cap |
| `Lrc.TagTailValue` | src/lrc.rs:21 | seconds take exactly two digits and milliseconds exactly three, and together they read back as seconds·1000 + milliseconds |
| `Lrc.ParseTimestampRoundTrip` | src/lrc.rs:18-23 | reading a rendered time tag back gives the offset it was made from, so the tag loses nothing |
| `Lrc.TimestampExample` | src/lrc.rs:19-23 | 125050 ms renders as `[02:05.050]` |
| `Lrc.TimestampHourExample` | src/lrc.rs:21 | 3600000 ms renders as `[60:00.000]` |
| `Decimal.ZeroPadValue` | src/lrc.rs:21 | zero-padded text still denotes the number, and it is the plain text once that is at least the width |
| `Decimal.DigitsLength` | src/lrc.rs:21 | for k ≥ 1, the plain text of n has at most k digits when n < 10^k and more than k digits when n ≥ 10^k |
| `Decimal.ValueOfDigits` | src/lrc.rs:21 | the plain decimal text of n reads back as n |
| `Decimal.DigitsOfValue` | src/spotify_lyrics.rs:38 | a digit string without a redundant leading zero is the plain text of its value |
| `Decimal.CanonicalForm` | src/spotify_lyrics.rs:38 | every digit string is a run of zeros followed by the plain text of its value |
| `Decimal.ParseU64` | src/spotify_lyrics.rs:38 | an accepted text is neither empty nor a lone `+`, and holds only digits after its optional leading `+` |
| `Decimal.ParsePadded` | src/spotify_lyrics.rs:38 | `parse::<u64>` accepts an optional `+`, any number of zeros and the digits of a 64-bit value, and returns that value |
| `Decimal.ParseSound` | src/spotify_lyrics.rs:38 | every text `parse::<u64>` accepts has that form, so nothing else is accepted |
| `Decimal.ParseDigits` | src/web_player/resource.rs:33-35 | the plain text of a 64-bit value parses back to it |
| `Decimal.ParseRejects` | src/web_player/resource.rs:33-35 | empty text, a lone `+`, any non-digit after the optional `+` (a `-` included) and values of 2^64 or more are rejected |
| `Wrappers.AllOrNothingSpec` | src/spotify_lyrics.rs:25-40 | the loop with `?` succeeds exactly when every element does, and then keeps the length and order, each result being its element's |
| `Wrappers.AllOrNothingOfValues` | src/web_api/search.rs:73-78 | when every element yields a value, the loop's result is the sequence of those values |
| `LyricLines.DecodeLine` | src/spotify_lyrics.rs:26-39 | an element decodes exactly when `words` and `startTimeMs` are strings and `startTimeMs` parses as a `u64`; the line holds the words verbatim and that value |
| `LyricLines.DecodeLineAccepts` | src/spotify_lyrics.rs:26-39 | an accepted element has a string `words`, copied verbatim, and a string `startTimeMs` whose parse is the start time |
| `LyricLines.DecodeLineRejects` | src/spotify_lyrics.rs:26-38 | an element fails when it is not an object, lacks `words` or `startTimeMs`, has a non-string there (a JSON number included), or has a `startTimeMs` that does not parse |
| `LyricLines.DecodeEncodeLine` | src/web_player/resource.rs:21-36 | decoding the element of a line gives the line back |
| `LyricLines.DecodeLines` | src/web_player/resource.rs:19-38 | a decoded array has one line per element |
| `LyricLines.DecodeLinesSpec` | src/web_player/resource.rs:19-38 | the array decodes exactly when every element does, into one line per element in array order |
| `LyricLines.DecodeLinesEmpty` | src/spotify_lyrics.rs:24-41 | an empty array decodes to no lines |
| `LyricLines.DecodeEncodeLines` | src/spotify_lyrics.rs:24-41 | decoding the elements of a sequence of lines gives the lines back, in order |
| `SpotifyLyrics.Decode` | src/spotify_lyrics.rs:18-42 | every failure is `InvalidJSON`; a success means `lyrics.lines` is an array, with one line per element |
| `SpotifyLyrics.TryFrom` | src/spotify_lyrics.rs:18-42 | the push loop with early returns computes exactly the all-or-nothing decoding of `lyrics.lines` |
| `SpotifyLyrics.DecodeErrors` | src/spotify_lyrics.rs:19-25 | a missing `lyrics`, a missing `lines` or a non-array `lines` is `InvalidJSON` |
| `SpotifyLyrics.DecodeAllOrNothing` | src/spotify_lyrics.rs:25-40 | one element that does not decode fails the whole document with `InvalidJSON` |
| `SpotifyLyrics.DecodeSuccess` | src/spotify_lyrics.rs:24-41 | on success there is one line per element, in order, with the element's words verbatim and the parsed value of its `startTimeMs` |
| `SpotifyLyrics.DecodeEncode` | src/spotify_lyrics.rs:18-42 | the document of a sequence of lines decodes to exactly those lines |
| `WebPlayerResource.Decode` | src/web_player/resource.rs:18-39 | every failure is `UnexpectedResponse`; a success means the value is an array, with one line per element |
| `WebPlayerResource.TryFrom` | src/web_player/resource.rs:18-39 | the push loop with early returns computes exactly the all-or-nothing decoding of the array |
| `WebPlayerResource.DecodeErrors` | src/web_player/resource.rs:20-35 | a non-array, or an array with any element that does not decode, is `UnexpectedResponse` |
| `WebPlayerResource.DecodeSuccess` | src/web_player/resource.rs:19-38 | on success there is one line per element, in order, with words verbatim and `start_time` the parsed `startTimeMs` |
| `WebPlayerResource.DecodeEmpty` | src/web_player/resource.rs:19-38 | an empty array decodes to an empty line list |
| `WebPlayerResource.DecodeEncode` | src/web_player/resource.rs:18-39 | the array of a sequence of lines decodes to exactly those lines |
| `WebApiResource.TryFrom` | src/web_api/resource.rs:27-53 | a track decodes exactly when `id`, `name`, `artists[0].name` and `album.name` are all strings, and the only error is `UnexpectedResponse` |
| `WebApiResource.TryFromFields` | src/web_api/resource.rs:27-53 | a decoded track holds, verbatim, the strings at `id`, `name`, `artists[0].name` and `album.name` |
| `WebApiResource.TryFromFirstArtistOnly` | src/web_api/resource.rs:38-44 | the artists after the first do not change the result |
| `WebApiResource.TryFromEncode` | src/web_api/resource.rs:24-53 | the object of a track decodes to that track, whatever artists follow the first |
| `WebApiResource.Display` | src/web_api/resource.rs:56-63 | the line opens with `Title: "` and the title, closes with the album and a quote, and adds 34 characters of labels and quotes to the three fields |
| `WebApiResource.DisplayInjective` | src/web_api/resource.rs:56-63 | when title and artist hold no double quote, equal display lines mean equal title, artist and album |
| `WebApiSearch.QueryText` | src/web_api/search.rs:31-37 | the query starts with the title, repeats it after ` track:`, ends with ` album:` and the album, and is as long as its parts |
| `WebApiSearch.QueryTextInjective` | src/web_api/search.rs:31-37 | when title and artist hold no colon, equal query texts mean equal queries |
| `WebApiSearch.Search` | src/web_api/search.rs:54-79 | an `ApiError` arises exactly for a status outside 2xx; the other errors are `JsonParseError` with the body and `UnexpectedResponse`; a success is a 2xx JSON body with one track per item of `tracks.items` |
| `WebApiSearch.DecodeSearch` | src/web_api/search.rs:54-79 | the decoding of `search`, a push loop returning the first item's error, computes exactly `Search` |
| `WebApiSearch.SearchApiError` | src/web_api/search.rs:56-60 | a status outside 2xx is `ApiError(status, body)` and nothing is decoded |
| `WebApiSearch.SearchShapeErrors` | src/web_api/search.rs:61-71 | a body that is not JSON is `JsonParseError(body)`; a missing `tracks`, a missing `tracks.items` or a non-array there is `UnexpectedResponse` |
| `WebApiSearch.SearchAllOrNothing` | src/web_api/search.rs:73-76 | one item that is not a track fails the whole search with `UnexpectedResponse` |
| `WebApiSearch.SearchSuccess` | src/web_api/search.rs:73-78 | on success there is one track per item, in item order, each the item's own decoding |
| `WebApiSearch.SearchEncode` | src/web_api/search.rs:61-78 | a 2xx response listing some tracks decodes to exactly those tracks, in order |
| `TokenCache.IsExpired` | src/token.rs:18-20 | a cache is not expired exactly when `now` is at or before its expiry instant |
| `TokenCache.ExpiryBoundary` | src/token.rs:19 | at its own expiry instant a cache is not expired; one unit later it is |
| `TokenCache.ExpiryMonotone` | src/token.rs:19 | once expired, expired at every later instant; not expired at `now`, not expired at any earlier instant |
| `TokenCache.ExpiryIgnoresToken` | src/token.rs:17-20 | expiry depends on the expiry instant alone, not on the token |
| `App.CreateSearchQuery` | src/main.rs:85-91 | a query is built exactly when title, artist and album are all present, from exactly those values; otherwise the error names the first missing frame |
| `App.FindMatch` | src/main.rs:115-117 | the index found is that of a track equal to the tag on all three fields with no earlier such track, and there is none exactly when no track matches |
| `App.SelectTrackByIdentity` | src/main.rs:110-120 | the result is None exactly when no track matches, and otherwise is the first matching element of the list |
| `App.SelectTrackByUser` | src/main.rs:93-108 | a chosen track is an element of the list |
| `App.SelectTrack` | src/main.rs:47-59 | any selected track is an element of the search results |
| `App.SelectManual` | src/main.rs:47-48 | manual mode returns the user's pick, even when a track matches |
| `App.SelectIdentityWins` | src/main.rs:49-53 | outside manual mode, a matching track is selected and the user is not asked |
| `App.SelectNoMatch` | src/main.rs:54-58 | with no matching track, middle mode returns the user's pick and automatic mode selects nothing |

## Left out

- JSON text parsing is not modelled. Each decoder takes the already-parsed value. For the search response, the result of `serde_json::from_str` is an input: the parsed value, or `None` when the text is not JSON.
- JSON numbers are modelled as integers. Every path here rejects a number wherever it expects a string, so floating point never matters.
- Network I/O is not modelled. That covers request building (URL, bearer token, query parameters), `send` and reading the body. The `HttpError` variants therefore carry no payload and are never produced.
- `Utc::now()` is not modelled. `TokenCache.IsExpired` takes the current instant as a parameter. An instant is an integer count of a fixed unit, so the sub-second precision of `DateTime<Utc>` is not modelled.
- The `Formatter` write errors (`?` after `write!`/`writeln!`) are not modelled. Writing into a string never fails.
- src/token_store.rs is not part of this model. It only loads and saves files through `tokio::fs` and serde.
- src/web_api/auth.rs, src/web_player/auth.rs, src/web_player/lyric.rs, src/web_player.rs, src/web_api.rs and src/args.rs are not part of this model. They hold HTTP clients, token forwarding and the CLI declaration.
- The error enums of src/web_api.rs, src/web_player.rs and src/lib.rs are modelled as datatypes.
- The rest of src/main.rs is not part of this model: the HOME lookup, the client builder, tag reading and writing, the prompts, the confirmation, printing and logging. The user's answer to the selection prompt is an input (`UserPick`). A chosen index is required to be in range, because the prompt only offers the listed tracks and `&tracks[i]` would panic otherwise.
- `select_track_by_identity` unwraps the tag's frames, so its model requires all three frames. `create_search_query` has already checked them on the only path that reaches it. The prompt text that `select_track_by_user` builds from the frames is not modelled, so its model takes no tag.
- src/args.rs declares no `mode` field and no `Mode` type, though src/main.rs:47 and src/main.rs:54 call `args.mode.is_manual()` and `args.mode.is_middle()`. The mode is modelled as `Auto | Middle | Manual`, answering `is_manual` and `is_middle`.
- src/lrc.rs imports a `Lyrics` type that src/lib.rs does not define. `Lrc` is modelled over a sequence of `LyricLine`s, the shape both lyric decoders produce. The two identical `LyricLine` structs of the source are one datatype here.
- The `{: <02}` and `{: <03}` formats are modelled as left zero-padding to a minimum width. With the `0` flag, Rust pads integers with zeros on the left and ignores the fill and alignment.
- Strings are sequences of characters, not UTF-8 bytes. `parse::<u64>` accepts only ASCII digits, so every non-ASCII character is rejected just as a byte-level parser would reject it.
- Of src/token.rs only the `Token` and `Cache` records and `is_expired` are modelled.
- The expiry test is strict, `expires_at < now`: a cache whose expiry instant equals the current instant is still used (`TokenCache.ExpiryBoundary`).
