# PocketBall MLB voice bot: the data core in Dafny

This project models the logic of the PocketBall MLB voice bot that does its own
computing, apart from the network, the speech and language-model services and
the user interface. It covers three parts.

- **Play normaliser** (`server/mlb_data.py`). `get_current_play_info` turns the
  live feed's `allPlays` into play records of a fixed shape. Keys read with
  `[...]` are mandatory: one missing key fails the whole batch. Keys read with
  `.get` become null. Absent lists become `[]`. `save_live_data` wraps a
  non-empty list in the `{liveData: {plays: {allPlays: ...}}}` envelope.
- **Server handlers** (`server/server.py`).
  - `get_gemini_response`: a bounded retry loop with a fixed fallback text.
  - `get_live_games`: the score line of the first live game in the schedule.
  - `get_game_summary`: a stable sort of the saved plays by start time, then
    one text block per play, joined with newlines.
- **iOS client helpers** (`mlb2/ContentView.swift`).
  - `Color.init(hex:)`: trims the string, scans it as hex and cuts it into
    alpha, red, green and blue channels.
  - `createUploadRequest`: builds the multipart body around the recorded audio.

JSON documents are modelled after parsing, as the `Json` datatype in
`json.dfy`. A Python exception (KeyError, TypeError, AttributeError) is the
`None` of an `Option`. Every handler turns that `None` into its fixed fallback
text, as the source's `except` clauses do.

Files:
- `json.dfy`: the `Json` values and the Python operations applied to them.
- `sorting.dfy`: Python's stable `sorted` with `str` keys.
- `mlb_data.dfy`: the normaliser and the envelope.
- `server.dfy`: the three handlers.
- `content_view.dfy`: the hex colour decoder and the upload body.

The code saves the snapshot by opening `liveData.json` with `'w'`, which
truncates it, and dumping into it. `MlbData.SaveLiveData` models that plain
overwrite and claims no atomicity.

## Model

| member | source | states |
|---|---|---|
| JsonValue.LoopItems | server/mlb_data.py:22 | a `for` loop over a list visits exactly its items; a loop over any other value that can be iterated visits only strings |
| JsonValue.MapAll | server/mlb_data.py:49-87 | a comprehension whose body may raise succeeds exactly when the body succeeds on every element; its result then has the same length and, at each index, the body's result for that element |
| MlbData.PickSpec | server/mlb_data.py:24-48 | a dict literal of mandatory `v[k]` reads succeeds exactly when `v` is a dict holding every listed key; the result then has exactly the listed keys, each holding the source's value |
| MlbData.PickOptionalSpec | server/mlb_data.py:50-72 | a dict literal of `v.get(k)` reads succeeds exactly when `v` is a dict; the result then has exactly the listed keys, each holding the source's value or null when the key is absent |
| MlbData.NormalizeCreditSpec | server/mlb_data.py:74-86 | a credit normalises exactly when it is a dict whose `player` and `position` are dicts or absent; the record then has the fixed credit shape, and its leaves are the source's values or null (a missing `player` or `position` reads as `{}`) |
| MlbData.NormalizeCreditsSpec | server/mlb_data.py:74-86 | a runner's credits normalise exactly when every credit is well formed, and every normalised credit then has the credit shape |
| MlbData.NormalizeRunnerOk | server/mlb_data.py:49-87 | a runner normalises exactly when it has `movement` (a dict) and `details`, its `details.runner` is a dict or absent, and its credits are iterable and well formed |
| MlbData.NormalizeRunnerParts | server/mlb_data.py:49-87 | a normalised runner has the fixed runner shape; its `movement`, `details` and `details.runner` are the optional picks of the source objects, a missing `details.runner` reading as `{}`; its credits are the normalised credits in source order |
| MlbData.NormalizeRunnerFields | server/mlb_data.py:50-73 | every `movement`, `details` and `details.runner` leaf of a normalised runner equals the source's value, or null where the source has none |
| MlbData.NormalizeRunnersSpec | server/mlb_data.py:49-87 | a play's runners normalise exactly when every runner is well formed, and every normalised runner then has the runner shape |
| MlbData.NormalizePlayOk | server/mlb_data.py:22-90 | a play normalises exactly when it has all eight `result` keys, all eight `about` keys, all three `count` keys and well-formed runners |
| MlbData.NormalizePlayParts | server/mlb_data.py:22-90 | a normalised play has exactly the six play keys and the fixed nested shapes, whatever extra keys the source has; its runners are the normalised runners in source order; `pitchIndex` and `actionIndex` are the source's lists, or `[]` when absent |
| MlbData.NormalizePlayFields | server/mlb_data.py:24-48 | every `result`, `about` and `count` field of a normalised play equals the source play's field |
| MlbData.GetCurrentPlayInfo | server/mlb_data.py:19-97 | the loop returns `None` when `allPlays` cannot be read or any play is malformed, and never a partial list; otherwise it returns one record per play, of the same length and in the same order, record i being play i normalised |
| MlbData.Envelope | server/mlb_data.py:179-185 | reading `['liveData']['plays']['allPlays']` from the envelope gives back the saved list unchanged |
| MlbData.SaveLiveData | server/mlb_data.py:177-188 | a `None` or empty list leaves the file as it was; a non-empty list replaces it with an envelope that reads back as that list |
| Sorting.StrLeTotalOrder | server/server.py:303 | Python's `<=` on strings is reflexive, total, antisymmetric and transitive |
| Sorting.SortByPermutes | server/server.py:303 | the sorted plays are a permutation of the input |
| Sorting.SortBySorted | server/server.py:303 | the sorted plays are in non-decreasing key order |
| Sorting.SortByStable | server/server.py:303 | for every key, the elements with that key appear in the same order as in the input |
| Server.GetGeminiResponse | server/server.py:101-111 | at most `max_retries` calls are made, and every call before the last one failed; if some attempt succeeds, the last call made is the first success and its text is returned; if all attempts fail, including when `max_retries <= 0`, exactly `max_retries` calls (at least 0) are made and the fixed apology is returned |
| Server.GetGeminiResponseDefault | server/server.py:101-111 | with the default of three retries, between one and three calls are made; a first attempt that succeeds is the only call and its text is returned; three failures give the fixed apology after exactly three calls |
| Server.LiveFilterSpec | server/server.py:273-274 | the live filter succeeds exactly when every game has `status.abstractGameState`; it then keeps only live games, keeps every live game, and keeps each game at most as often as it occurs in the input |
| Server.LiveFilterOrder | server/server.py:273-274 | the kept games are exactly the live games, in their original order: each kept game sits at a strictly later position of the input than the one before it, and a position is used exactly when the game there is live |
| Server.LiveFilterFirst | server/server.py:273-277 | the filtered list is empty exactly when no game is live; otherwise its head is a live game and every earlier game is not live |
| Server.LiveGamesNoDates | server/server.py:271-290 | a missing, null or empty `dates` gives "No live games at the moment"; a snapshot that is not a dict, or a first date whose `games` cannot be read, gives "Unable to fetch game information" |
| Server.LiveGamesChoosesFirstLive | server/server.py:271-290 | a game without a state anywhere in the list gives the error text; no live game gives the no-live-games text; otherwise the answer is the score line of the first live game, and later live games play no part |
| Server.ScoreLineOk | server/server.py:278-281 | the live line is read exactly when `teams`, both sides, both `team` dicts, both `name`s and both `score`s are present; any one missing makes it fail, which the handler answers with "Unable to fetch game information" |
| Server.ScoreLineText | server/server.py:278-284 | a game with both team names and both scores present reads `LIVE: {away} ({awayScore}) vs {home} ({homeScore})`, each value rendered as `str` renders it, away side first |
| Server.MetsBravesLine | server/server.py:278-284 | a live Mets-at-Braves game scoring 3-2 reads `LIVE: Mets (3) vs Braves (2)`, away side first |
| Server.ReplaceT | server/server.py:309 | `replace('T', ' ')` keeps the length and changes exactly the 'T' characters, into spaces |
| Server.DeleteZ | server/server.py:309 | `replace('Z', '')` leaves no 'Z' and keeps every other character as often as it occurs |
| Server.TimestampChars | server/server.py:309 | a timestamp has no 'T' and no 'Z', and keeps every other character except the space as often as the start time has it |
| Server.TimestampOf | server/server.py:309 | a start time `dateTtimeZ` whose parts hold no 'T' or 'Z' becomes `date time` |
| Server.RenderBlockOk | server/server.py:309-317 | a play renders exactly when it has a string start time and every other key the block reads |
| Server.RenderBlockText | server/server.py:309-317 | a play with all fields present renders as the timestamp, a newline, "Top" or "Bottom" by the truthiness of `isTopInning`, the inning, the description and the away-home score, ending in a newline |
| Server.GetGameSummary | server/server.py:300-326 | the rendering loop yields the summary specified by `Summarise`, or the fixed error text as soon as reading or rendering fails |
| Server.JoinWithAppend | server/server.py:321 | `"\n".join` puts one separator between neighbouring blocks and none at the ends |
| Server.SummariseEmpty | server/server.py:306-321 | no plays give the empty summary |
| Server.SummariseOk | server/server.py:307-326 | the summary fails as a whole, with no partial output, exactly when some play cannot be rendered |
| Server.SummariseSortsStably | server/server.py:303-321 | a successful summary renders a permutation of the plays, sorted by start time, with plays of equal start time in their saved order, and the blocks joined in that order |
| Server.SavedSummary | server/server.py:300 | the summary of a saved envelope is the summary of the saved list |
| Server.ShapedPlayRenders | server/server.py:309-314 | a record of the normalised play shape renders exactly when its start time is a string |
| Server.NormalizedPlayRenders | server/server.py:309-314 | a play produced by the normaliser renders exactly when the feed play's start time is a string |
| ContentView.LeadingJunk | mlb2/ContentView.swift:263 | the count of leading characters dropped covers only non-alphanumeric characters and stops at an alphanumeric one |
| ContentView.TrailingJunk | mlb2/ContentView.swift:263 | the count of trailing characters dropped covers only non-alphanumeric characters and stops at an alphanumeric one |
| ContentView.TrimSpec | mlb2/ContentView.swift:263 | trimming keeps one contiguous piece and drops only non-alphanumeric characters outside it; the piece begins and ends with an alphanumeric character, and it is empty exactly when the input has no alphanumeric character |
| ContentView.TrimKeeps | mlb2/ContentView.swift:263 | a string that begins and ends with an alphanumeric character is left as it is |
| ContentView.TrimDropsFirst | mlb2/ContentView.swift:263 | a leading non-alphanumeric character is dropped |
| ContentView.ScanAllHex | mlb2/ContentView.swift:264-265 | a string of hex digits scans as its whole value |
| ContentView.ScanBound | mlb2/ContentView.swift:264-265 | the scanned value is below 16 to the power of the string's length |
| ContentView.ChannelsInRange | mlb2/ContentView.swift:264-276 | for 3, 6 or 8 trimmed characters the scanned value fits 64 bits and every channel is in 0..255; any other length gives (1, 1, 1, 0) |
| ContentView.Hex3Channels | mlb2/ContentView.swift:268-269 | three digits give alpha 255 and each digit times 17, which is the digit written twice |
| ContentView.Hex6Channels | mlb2/ContentView.swift:270-271 | six digits give alpha 255 and red, green and blue from the three digit pairs in order |
| ContentView.Hex8Channels | mlb2/ContentView.swift:272-273 | eight digits give alpha, red, green and blue from the four digit pairs in order |
| ContentView.AccentColour | mlb2/ContentView.swift:170 | the background colour "FADE44", and "#FADE44" after trimming, give the opaque channels (250, 222, 68) |
| ContentView.Utf8Char | mlb2/ContentView.swift:90-94 | a character encodes as 1 to 4 bytes, and as its own single byte exactly when it is ASCII |
| ContentView.Utf8Append | mlb2/ContentView.swift:90-94 | encoding two strings one after the other gives the encoding of their concatenation |
| ContentView.CreateUploadRequest | mlb2/ContentView.swift:79-97 | the request is a POST to `http://localhost:8000/transcribe/` with the multipart content type naming the boundary; its body is the encoded head, then the audio bytes (none if unreadable), then the encoded closing boundary |
| ContentView.HeadStartsWithDashes | mlb2/ContentView.swift:90 | the encoded head begins with the two dashes of the boundary line |
| ContentView.TailEndsWithCrLf | mlb2/ContentView.swift:94 | the encoded tail ends with CR LF |
| ContentView.BodyFramesAudio | mlb2/ContentView.swift:86-94 | the bytes between the head and the tail are exactly the audio; the body starts with `--` and ends with CR LF |

## Left out

- HTTP and files: `requests.get` and its hard-coded feed URL (which ignores `game_id`), `json.load` and `json.dump`, and the `open` calls. The model starts from the parsed document. A parse failure would be one more route to the same `None` or fallback text.
- `SaveLiveData`: models the file as an optional JSON value before and after the call. It does not model a crash part-way through the truncating write, so nothing about atomicity is claimed.
- Logging (`logger.error`, the `print` of the exception) and `print_play_info`: console output only.
- FastAPI routes, CORS, `uvicorn`, and the Speech, Text-to-Speech and Vertex AI clients: foreign services that the code only forwards to.
- `GetGeminiResponse`: `chat.send_message` is passed in as a function from the transcription and the attempt number to an outcome. The chat session's own state and the asynchronous `await` are not modelled.
- `PyRepr`: escapes nothing. Python's `repr` of a string escapes backslashes, newlines and other non-printable characters, and switches to double quotes when the string contains `'` and no `"` (with both present it keeps single quotes and escapes the `'`); the model always writes `'` + the raw text + `'`. Numbers are integers only, and a non-empty dict shows as `{...}`, because the map keeps no insertion order. Floats never reach the rendered text in the model.
- `LoopItems`: a `for` over a non-empty dict visits its keys, on which every loop body here raises. The model goes straight to the failure.
- `SortKey`: a start time that is not a string fails the model at the sort. The source may fail later, at `.replace`; the handler's answer is the same error text either way.
- `ContentView.IsAlphanumeric`: ASCII letters and digits only. Swift's `CharacterSet.alphanumerics` also contains letters, marks and numbers outside ASCII (Unicode categories L, M and N, such as combining accents and '½').
- `ContentView.Trim`: trims characters, whereas Swift's `hex.count` counts grapheme clusters. The two agree when the trimmed string has only ASCII characters and no CR LF pair. Swift counts CR LF as one `Character`, so `"FF\r\nFF"` has count 5 there and takes the default branch, while the model counts 6 and decodes it as six digits.
- `ContentView.ScanHexInt64`: does not model the scanner's saturation on overflow. `ChannelsInRange` shows the value fits 64 bits in every case where it is used.
- The `Double(x) / 255` colour construction: floating point. The channels are integers before it.
- `UUID().uuidString`: the random boundary is a parameter of `CreateUploadRequest`.
- `URLRequest` as a whole: only the URL, the method, the content type and the body are kept.
- SwiftUI views, audio recording and playback, `URLSession` callbacks and metering timers, and all of `mlb2/LogoView.swift`: UI, concurrency and floats.
