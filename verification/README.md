# Audio-tagging bot and subscription worker: a Dafny model of their decision logic

This project models the two pieces of real decision logic in the repository.
Both are written as pure functions over immutable values.

* **The Telegram audio handler** (`bot_core.py`, `process_audio`). The model covers:
  - which incoming messages it handles;
  - how an acoustic-fingerprint recognition response becomes a title/artist/album record or "not found";
  - how that record is written into the file's easy-ID3 tag container;
  - the file name the tagged file is delivered under.

  The response is a datatype: an optional `track` with optional `title` and `subtitle`, plus typed `sections` holding `metadata` entries. The tag container is a `map<string, string>`.
* **The subscription worker** (`_worker.js`, `fetch`). The model covers:
  - the path check (403);
  - token extraction from the last path segment (400);
  - the user lookup (404);
  - the empty config store (503);
  - on success, the choice of at most fourteen keys and the concatenation of their configurations, one per line.

  Both key-value stores are maps. The result of the store's `list()` is a sequence of key names. The random sort is a parameter: an arbitrary permutation of that sequence.

Modules:

* `Wrappers` holds `Option`.
* `Strings` holds the prefix and suffix tests, `str.replace` on single characters, and `String.split`/`join` on one separator. It also proves the round trips between split and join, and that the last split piece is the longest separator-free suffix.
* `BotCore` models the Python handler.
* `SubscriptionWorker` models the worker.

Notes on matching the code:

* The album loop in `bot_core.py` has no `break`. The model therefore proves that the *last* `"Album"` entry of a `"SONG"` section wins, not the first.
* `meta.get('text')` can yield Python `None`, so the album is an `Option<string>`. It starts as `Some("")`, and it is written to the tags only when it is a non-empty string (`if album:`).
* In the worker, `if (!user)` also rejects a stored empty string, and `if (config)` skips empty configurations as well as missing ones. The model keeps both.
* A document without a file name makes the guard on line 28 raise. The model represents that outcome as `Admission.Fault`, separate from a silent return.

## Model

| member | source | states |
|---|---|---|
| BotCore.Admit | bot_core.py:28-29 | A message is handled iff it has audio or a document whose file name ends in ".mp3"; the guard raises iff there is no audio and the document has no file name; otherwise the message is ignored |
| BotCore.Identify | bot_core.py:37-52 | No `track` gives NotFound; otherwise title = `title` or "Unknown", artist = `subtitle` or "Unknown", album = text of the last "Album" entry of a "SONG" section (empty string if none) |
| BotCore.AlbumScanIsLastMatch | bot_core.py:47-52 | The forward scan, which overwrites the album at every "Album" entry of every "SONG" section, equals the text of the last such entry, or "" when there is none |
| BotCore.AlbumFromSongSection | bot_core.py:47-52 | With no "Album" entry in any "SONG" section the album is ""; otherwise it is the text of some "Album" entry of a "SONG" section |
| BotCore.OtherSectionsIgnored | bot_core.py:48-49 | Inserting a section whose type is not "SONG" anywhere in the list never changes the album |
| BotCore.ApplyTags | bot_core.py:64-67 | After the update, "title" and "artist" hold the record's values; "album" holds the album if it is non-empty, and otherwise keeps its old presence and value; every other tag is unchanged and no other key appears |
| BotCore.ApplyTagsIdempotent | bot_core.py:64-67 | Writing the same record twice gives the same tag map as writing it once |
| BotCore.ApplyTagsFresh | bot_core.py:64-67 | On an empty container, a record with no album yields exactly the title and artist tags |
| BotCore.Sanitize | bot_core.py:70 | Same length; each '/' and '\\' becomes '_' and every other character is kept; the result holds neither separator |
| BotCore.SanitizeIdempotent | bot_core.py:70 | Sanitising an already sanitised string changes nothing |
| BotCore.SanitizeFixedPoints | bot_core.py:70 | Sanitising leaves a string unchanged iff it contains neither '/' nor '\\' |
| BotCore.SafeName | bot_core.py:70 | The delivered name contains no '/' or '\\', ends with ".mp3", and has length \|artist\| + \|title\| + 3 + 4 |
| BotCore.SafeNameParts | bot_core.py:70 | The name is the sanitised artist, " - ", the sanitised title, then ".mp3" |
| BotCore.Finish | bot_core.py:37-72 | Without a `track`, no tag is written and nothing is delivered; with one, the title and artist tags are set and a ".mp3" name is delivered |
| Strings.Replace | bot_core.py:70 | Every occurrence of one character is replaced by another, positions and length preserved |
| Strings.LastSegmentIsLongestSuffix | _worker.js:5-6 | The last '/'-piece of the path is separator-free, is a suffix of the path, and is preceded by a '/' whenever it is shorter than the path |
| Strings.JoinSplit | _worker.js:5 | Joining the pieces of a split with the separator gives back the string |
| Strings.SplitJoin | _worker.js:5 | Splitting a join of separator-free pieces gives back the pieces |
| SubscriptionWorker.Fetch | _worker.js:3-45 | Status is 403 iff the path is outside "/sub/"; 400 iff inside with an empty or "sub" token; 404 iff the token passes but the user is missing or empty; 503 iff the user is known but the listing is empty; otherwise 200, with the encoded assembled output as the body |
| SubscriptionWorker.DeniedRegardlessOfStores | _worker.js:9-11 | A path outside "/sub/" gets 403 "Access Denied" for every token, store content and shuffle |
| SubscriptionWorker.MalformedTokenSkipsStores | _worker.js:15-17 | An empty or "sub" token under "/sub/" gets 400 "Invalid Token" whatever both stores hold, so no lookup influences it |
| SubscriptionWorker.UnknownUserSkipsConfigs | _worker.js:19-22 | An unknown user gets 404 whatever the config store holds |
| SubscriptionWorker.TokenOfSubPath | _worker.js:5-9 | For "/sub/t" with t free of '/', the path passes the prefix check and the token is exactly t |
| SubscriptionWorker.Select | _worker.js:32 | The selection is a prefix of the shuffled keys of length min(14, n); it is the whole list when n <= 14 |
| SubscriptionWorker.SelectionFromListing | _worker.js:25-32 | Given any permutation of the listing, at most 14 keys are selected; each is a listed key, none is selected more often than it is listed, and all are selected when there are at most 14 |
| SubscriptionWorker.PayloadsFromKeys | _worker.js:35-39 | Every emitted configuration is the non-empty stored value of one of the selected keys; all keys served gives one per key, and none served gives none |
| SubscriptionWorker.AssembleOutput | _worker.js:34-40 | The loop's output is the in-order concatenation of config + "\n" for each selected key with a non-empty stored config |
| SubscriptionWorker.SuccessBody | _worker.js:25-43 | A 200 body encodes at most 14 lines, each the non-empty config stored under some listed key |
| SubscriptionWorker.LinesRoundTrip | _worker.js:34-40 | When no config contains a newline, splitting the output on "\n" gives back the emitted configs followed by one empty piece |

## Left out

- Telegram transport (`reply_text`, `download`, `edit_text`, `reply_audio`, `delete`), the status texts and the caption: these are network I/O with no decision logic.
- The Shazam `recognize` call: a remote service. Its response is an input value here.
- JSON values in the response other than strings, and keys present with a `null` value: the model treats a present key as holding a string. A `null` `sections` or `metadata` list would make the Python loop raise, and that is not modelled.
- mutagen `EasyID3`/`MP3` opening, `add_tags` and `save` (bot_core.py:56-62, 68): this is foreign file I/O. Easy-ID3 keeps each tag as a list of strings; the model keeps one string per tag.
- `os.path.join`, `os.rename`, `os.remove` and `os.path.exists` (bot_core.py:71-72, 89-93): filesystem side effects. Only the computed name is modelled.
- `FloodWait` handling, `asyncio.sleep` and the generic exception handler (bot_core.py:76, 85-88): async timing and error reporting over I/O.
- Reading `BOT_TOKEN` from the environment and constructing the client (bot_core.py:11-24): startup configuration.
- `Math.random` in the sort comparator (_worker.js:31): randomness. It is replaced by an arbitrary permutation of the listed keys, which is all a sort can produce.
- The asynchronous KV `get`/`list` calls: they are map lookups and a key sequence. Pagination of `list()` (at most 1000 keys per call) is not modelled; the listing is whatever sequence the call returned.
- `btoa` (_worker.js:43): a platform builtin. It is the opaque `encode` parameter, so its failure on characters above U+00FF is not modelled. The `content-type` header of the success response is not modelled either.
- `new URL(request.url)` parsing: the model starts from the already parsed pathname.
