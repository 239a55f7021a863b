# Topic-channel song search, modelled in Dafny

The repository is a small HTTP proxy with a single `GET /search?song=...` endpoint. The
handler:

- sends the song to a video search API;
- keeps only the items whose channel title ends, in any letter case, with `" - topic"`;
- answers `[]` when none is left;
- otherwise asks the video-details API for the kept ids, joined by commas;
- answers with one record per details item. Each record holds the item's metadata, the
  best thumbnail of `maxres`, `high` and `default`, and its duration.

`parseISO8601Duration` prints that duration as a clock string: `H:MM:SS` with hours,
`M:SS` without.

The model has four modules:

- `Wrappers`: the `Option` type.
- `Text`: the JavaScript built-ins the code uses, over `seq<char>`:
  - `parseInt` on decimal digits;
  - `String(n)`;
  - `padStart`;
  - `join` on one character;
  - ASCII `toLowerCase`;
  - `endsWith`.

  It also defines `Split`, the inverse of `join`, used to state the round trips. The code
  itself never splits a string.
- `Duration`: `parseISO8601Duration`. The regular expression
  `/PT(?:(\d+)H)?(?:(\d+)M)?(?:(\d+)S)?/` is modelled as a scanner:
  - the match starts at the first `PT`;
  - each optional group is taken exactly when the longest run of digits is followed by its
    designator.

  A declarative description of a match (`MatchSplit`) is proved to agree with the scanner
  in both directions. `ReadClock` is the partner of the formatting: it splits on `:` and
  reads the fields back.
- `Search`: the handler as a total function of three inputs:
  - the `song` query parameter;
  - `search`, the reply of the search call for a query;
  - `videos`, the reply of the details call for a query.

  A reply is `Failed` when the fetch or its JSON decoding throws, or when reading `items`
  from the decoded body throws (a `null` body, or an `items` that is truthy but not an
  array). Otherwise it is the decoded body, whose `items` may be missing. The answer is one of:
  - `BadRequest`: status 400;
  - `ServerError`: status 500, for every exception the `try` block catches;
  - `Found`: status 200 with the records.

## Model

| member | source | states |
|---|---|---|
| Duration.FindPT | index.js:16 | The position found holds `PT`, and no earlier position from the start does: the regular expression's leftmost match start. `None` only when there is no `PT`. |
| Duration.DigitRun | index.js:16 | The run that a greedy `\d+` takes: every character in it is a digit, and the character after it is not a digit, or the string ends. |
| Duration.Parse | index.js:16-17 | The match fails (`None`) exactly when the text contains no `PT`. |
| Duration.ParseMatchSplit | index.js:16-20 | Soundness. Text laid out as a prefix with no `PT`, then `PT`, then the optional `nH`, `nM` and `nS` groups, then a suffix where the pattern cannot take a further group, is read as those groups' numbers. An absent group counts as 0. |
| Duration.ParseHasMatchSplit | index.js:16-20 | Completeness. Every text containing `PT` is laid out that way around its first match, and `Parse` reads that match's numbers. |
| Duration.ParseRendered | index.js:16-20 | A match with nothing around it is read as its own numbers. |
| Duration.EmptyExactlyWithoutPT | index.js:15-24 | The function returns `""` exactly when the regular expression does not match, that is, when the input has no `PT`. Every match yields a non-empty clock string. |
| Duration.Pad2 | index.js:22-23 | `String(n).padStart(2,'0')` ends with the digits of `n` and is padded with `'0'` to two characters. It is never truncated, and it still reads as `n`. |
| Duration.FormatFields | index.js:21-23 | Split on `:`, the output is `[String(h), MM, SS]` when `h > 0`, otherwise `[String(min), SS]`. |
| Duration.FormatRoundTrip | index.js:18-23 | Reading the printed fields back gives the same hours, minutes and seconds, including values of 60 and more. Nothing is lost by formatting. |
| Duration.PadOneDigit | index.js:22 | A single digit gets exactly one leading `'0'`. |
| Duration.NoDesignatorsGiveZero | index.js:16-23 | `"PT"` gives `"0:00"`. |
| Duration.MissingMinutesCountAsZero | index.js:18-22 | `"PT1H5S"` gives `"1:00:05"`. |
| Duration.MinutesAreNotNormalised | index.js:19-23 | `"PT90M"` gives `"90:00"`. |
| Duration.SecondsOnlyLeaveMinutesUnpadded | index.js:21-23 | `"PT45S"` gives `"0:45"`. |
| Duration.MinutesAndSeconds | index.js:16-23 | `"PT3M45S"` gives `"3:45"`. |
| Duration.AllThreeComponents | index.js:16-23 | `"PT1H2M3S"` gives `"1:02:03"`. |
| Duration.DayComponentHasNoMatch | index.js:16-17 | `"P1DT2H"` contains no `PT`, so it gives `""`. |
| Text.NatToString | index.js:21-23 | `String(n)` for a non-negative integer. It is all digits, has no leading zero, has one character exactly when `n < 10`, and `parseInt` reads it back as `n`. |
| Text.LeadingZeros | index.js:22 | Zeros added in front by padding do not change what `parseInt` reads. |
| Text.SplitJoin | index.js:52 | Splitting a join on its separator gives the parts back, for a non-empty list whose parts contain no separator. |
| Search.TopicVideos | index.js:44-46 | Every item the filter keeps comes from a topic channel. |
| Search.TopicVideosKeepOrder | index.js:44-46 | The kept items appear in the order of the search reply. |
| Search.TopicVideosCount | index.js:44-46 | Each topic-channel item is kept as often as it occurs. Every other item is dropped. |
| Search.TopicVideosFromInput | index.js:44-46 | Every kept item comes from the search reply. |
| Search.TopicChannelByCharacters | index.js:45 | A channel passes exactly when its last eight characters, lower-cased, are `" - topic"`. |
| Search.ArtistTopicPasses | index.js:45 | A channel title of the form `<artist> - Topic` passes. |
| Search.NoTopicVideos | index.js:44-48 | Nothing is kept exactly when no item comes from a topic channel. |
| Search.EmptyFilterShortCircuits | index.js:44-50 | If no search item comes from a topic channel, or the reply has no `items`, the answer is a successful `[]`, whatever the details call would answer. |
| Search.VideoIdListRoundTrip | index.js:52 | The comma-joined id list splits back into the kept ids, in order, when no id holds a comma. |
| Search.SelectThumbnail | index.js:66 | The cover is the URL of the first label present among `maxres`, `high` and `default`, in that order. It is missing exactly when none of the three is present. |
| Search.HighBeatsDefault | index.js:66 | With `high` and `default` present but no `maxres`, the cover is the `high` URL. |
| Search.ToRecord | index.js:60-68 | Each record copies the details item's id, title, description, channel title and publication time. Its cover is the selected thumbnail and its duration is the formatted `contentDetails.duration`. It fails exactly when no thumbnail of the three exists, which is where `.url` of `undefined` throws. |
| Search.Records | index.js:60-68 | There is one record per details item, in the same order. The map fails exactly when some item fails. |
| Search.Handle | index.js:27-74 | The answer is a 400 with the text `Missing ?song=` exactly when `song` is missing or empty. With a song, a search call that throws answers 500. |
| Search.AnswerFollowsDetails | index.js:52-73 | When topic items exist, the answer depends only on the details reply for their joined ids. It is that reply's records when the reply succeeded, has `items` and every item has a thumbnail. Otherwise it is a 500. |
| Search.OnlyTopicVideosAnswered | index.js:44-68 | Every record answered carries the id of a search item from a topic channel. This needs two assumptions: no search id holds a comma, and the details API answers only for the ids it was asked about. |
| Search.TwoOfThreeFromTopicChannels | index.js:27-70 | Three search items, two from topic channels. The details call receives `a,c`, and the answer is the two records of the details reply, in the details order. |

## Left out

- The Express application is not modelled: CORS, the static `frontend` directory, `dotenv`, the port and `listen`. None of it affects the handler's logic.
- The two `fetch` calls are not modelled, nor the URL building, the API key and the `BASE` address. They become the `search` and `videos` parameters. Each receives the query fields the handler sends (`q`, `part`, `type`, `maxResults`, the comma-joined `id`).
- Writing the response is not modelled: setting the status, serialising JSON, `console.error`, and the `err.message` text of the 500 body. `ServerError` carries no text.
- A non-200 upstream status is not distinguished. The handler never looks at it: a body that decodes is used as is.
- `song` given as an array (`?song=a&song=b`) is not modelled. The query parameter is a string or missing.
- Search.TopicChannelByCharacters: lower-casing is modelled for ASCII letters only. `toLowerCase` also folds non-ASCII letters, and can change a string's length.
- Text.NatToString: `parseInt` and `String` work on unbounded naturals. JavaScript numbers lose precision above 2^53, and they print very large values in exponent notation.
- Search.SelectThumbnail: a thumbnail is modelled as its URL, a map from label to URL. A thumbnail object present without a `url` field (which would yield `undefined`) is not modelled.
- Search.TopicVideos: a search item always carries its `id.videoId` and `snippet.channelTitle`. A search item without `snippet.channelTitle` throws at line 45, and a topic item without `id` throws at line 52; both answer 500. A topic item whose `id` has no `videoId` adds an empty field to the id list. None of these cases is modelled.
- Search.ToRecord: snippet fields are modelled as strings that are always present. A missing `snippet` or `contentDetails`, which would throw and answer 500, is not modelled. Neither is a non-string duration.
- Search.OnlyTopicVideosAnswered: stated under the two assumptions above, because the handler itself does not check that the details items are the requested ones. The records' channel titles come from the details reply, not from the search reply that was filtered.
