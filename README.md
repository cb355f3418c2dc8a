# DhinSpeak relay core, modelled in Dafny

DhinSpeak is a real-time Indonesian/English speech-translation relay.
Speakers and listeners join a room over a WebSocket. Each text frame a
client sends is one of two things:

- a control frame: set the room language, ping, a partial-speech preview,
  or close the room;
- a payload that is translated and broadcast to everyone in the room.

This project models the sequential logic behind that relay and proves
properties of it. It covers four parts:

- **Room registry and dispatcher** (`rooms.dfy`, `protocol.dfy`, `relay.dfy`).
  - `ConnectionManager` is a class over three maps: room → members,
    room → language, and connection → last payload. It also holds the set
    of metrics subscribers.
  - It enforces the per-room capacity (`MAX_CONNECTIONS_PER_ROOM`, 50 by
    default; here a constructor parameter). It deletes a room, and the
    room's language, once it is empty. It flags consecutive duplicates.
    Broadcasting drops exactly the members whose send failed.
  - `Protocol` classifies frames: JSON `{type: …}` objects and the legacy
    `CONTROL:` marker. It also holds the placeholder phrases.
  - `Relay` owns the components and routes a frame through the fixed
    order control → duplicate → placeholder → rate limit → translate.
- **Translation cache and engine** (`lru_cache.dfy`, `translator.dfy`).
  - The LRU cache is a class over a sequence of entries, oldest first.
  - The translator covers the normalised cache key and word-set Jaccard
    similarity. It covers the fuzzy match against the fifteen seed
    sentence pairs and `translate_text` with its early returns, exact
    hits, fuzzy hits and partial/no-cache rule. It covers cache seeding
    and re-seeding.
- **Metrics and rate limiter** (`metrics.dfy`).
  - Bounded drop-oldest buffers, counters and per-client sliding windows
    live in the `MetricsManager` class.
  - Averages, rates, percentiles, per-pair and per-hour statistics are
    pure functions over those buffers.
- **Persistence guard and retry** (`firebase_sync.dfy`).
  - The control-message deny-list.
  - The initialisation and content guards of save, create and delete.
  - The bounded retry loop with linear back-off.

The outside world enters as parameters:

- the JSON decoder (`Parser`: text → optional value);
- the neural model call `_perform_translation` (`Model`). It returns
  `Some(output)` for every value the call returns, including its own
  fallback of returning the cleaned text. It returns `None` when the call
  raises into `translate_text`.
- clock readings (`Clock`, `now`);
- which connections' sends fail during a broadcast (`failing`);
- the per-attempt outcome of a Firebase write or delete (`succeeds`);
- whether the Firebase SDK set-up succeeds (`sdkReady`);
- what the connectivity probe reports (`Probe`).

Sockets are natural-number connection ids. Durations are exact `real`
milliseconds. `wrappers.dfy` holds `Option`. `text.dfy` models the
string library routines the core relies on: `str.isspace`, `strip`,
`split`, `lower`, `in`, `split(sep)[1]`, and `re.sub(r'\s+', ' ', …)`.

Where the code and its description disagree, the model follows the code.
Three such places are:

- the fuzzy match and the percentile index follow the code's exact
  comparison and indexing;
- `"CONTROL:"` in the deny-list can never match, because it is compared
  against lower-cased text;
- a client that is rejected by the rate limiter still gets a window
  entry.

## Model

| member | source | states |
|---|---|---|
| Text.Strip | ws_router.py:321 | `str.strip()`: the result has no whitespace at either end, and it is empty exactly when the text is blank |
| Text.StripIgnoresSurroundingSpace | translation/translator.py:118 | surrounding whitespace does not change what a text strips to |
| Text.WordsStrip | translation/translator.py:255-256 | stripping does not change the whitespace-split words |
| Text.CleanText | translation/translator.py:266-271 | `_clean_text` gives a normalised text: no outer whitespace, only single spaces; it is empty exactly when the input is blank |
| Text.WordsCleanText | translation/translator.py:266-271 | cleaning keeps exactly the words of the input |
| Text.Lower | translation/translator.py:118 | `lower()` works character by character and keeps the length |
| Text.ContainsLower | firebase/sync.py:181-182 | an occurrence of a substring survives lower-casing of both sides |
| Text.LowerHasNoCapital | firebase/sync.py:169 | a pattern starting with a capital letter never occurs in lower-cased text |
| Text.SecondPiece | ws_router.py:213 | `split(sep)[1]`: the text after the first separator, up to the next separator (which it does not itself contain), or to the end when there is none |
| LruCache.StoredSpec | translation/translator.py:35-45 | `put`: keys stay distinct and the size stays within capacity. The new pair is most recently used. Every other key keeps its value, except the least recently used one when a new key arrives at a full cache |
| LruCache.TouchedKeepsContents | translation/translator.py:27-33 | touching a key moves it to the most-recently-used end and changes no lookup |
| LruCache.EvictsOldestFirst | translation/translator.py:42-44 | after capacity + 1 distinct puts into an empty cache, the first key is gone and every other key maps to its value |
| LruCache.OverfullRun | translation/translator.py:42-44 | capacity + 1 distinct puts into an empty cache leave every entry but the first, in order |
| LruCache.PutAllFresh | translation/translator.py:35-45 | distinct puts that fit the capacity append in order, with no eviction |
| LruCache.TranslationCache.Get | translation/translator.py:27-33 | a hit returns the stored value and makes it most recently used; a miss returns None and changes nothing |
| LruCache.TranslationCache.Put | translation/translator.py:35-45 | the new contents are the stored contents of the specification, and the cache stays valid |
| LruCache.TranslationCache.Clear | translation/translator.py:47-49 | the cache is empty afterwards |
| LruCache.TranslationCache.Size | translation/translator.py:51-53 | a valid cache never holds more than its maximum size |
| Translator.KeyIgnoresCase | translation/translator.py:116-118 | texts equal up to letter case share a cache key |
| Translator.KeyIgnoresSurroundingSpace | translation/translator.py:116-118 | texts that differ only by surrounding whitespace share a cache key |
| Translator.Similarity | translation/translator.py:253-264 | the similarity lies in [0, 1], and it is 0 when either word set is empty |
| Translator.SimilaritySymmetric | translation/translator.py:253-264 | similarity is symmetric |
| Translator.AboveThreshold | translation/translator.py:242 | similarity > 0.6 exactly when both word sets are non-empty and 5·\|A∩B\| > 3·\|A∪B\| |
| Translator.BestOfSpec | translation/translator.py:235-245 | the chosen seed scores above 0.6. It is maximal, and every earlier seed scores strictly less, so ties keep the earlier seed. No seed is chosen exactly when none scores above 0.6 |
| Translator.BestMatch | translation/translator.py:237-245 | the scan loop returns the specified best seed |
| Translator.TranslationEngine.TryFuzzyMatch | translation/translator.py:233-251 | the reply and the new cache are those of the fuzzy specification: a lookup, with a move to the end, of the best seed's key |
| Translator.FuzzyKeepsCacheValid | translation/translator.py:247-249 | a fuzzy lookup changes no lookup and keeps the keys distinct |
| Translator.TranslateEarlyReturn | translation/translator.py:129-151 | when the languages are equal or the text is blank, the input comes back unchanged as a miss with zero time, and the cache is untouched |
| Translator.TranslateExactHit | translation/translator.py:155-170 | a non-empty cached value is returned as a hit; it becomes most recently used and no lookup changes |
| Translator.FuzzyOnlyForShortFinal | translation/translator.py:173 | after an exact miss, a long text or a partial request is never reported as a hit |
| Translator.FailureReturnsOriginal | translation/translator.py:219-231 | when the model call raises, the reply is the original text, unless a cache hit answered first |
| Translator.PartialKeepsContents | translation/translator.py:202 | a partial request changes no lookup and no size |
| Translator.AnswerCachedUnderQueryKey | translation/translator.py:176-203 | a final request leaves its reply cached under the query's own key, unless the model call raised |
| Translator.TranslateKeepsCacheValid | translation/translator.py:155-203 | every path keeps the keys distinct and the size within capacity |
| Translator.SeedsAllCached | translation/translator.py:105-114 | seeding with room for all thirty entries caches every pair in both directions |
| Translator.SeededPairsServed | translation/translator.py:155-170 | right after seeding, every seed sentence is answered from the cache with its partner |
| Translator.SeededVariantServed | translation/translator.py:155-170 | right after seeding, a seed sentence in any letter case and padded with any whitespace is still answered from the cache with its partner |
| Translator.TranslationEngine.constructor | translation/translator.py:58-64 | the engine holds the fifteen pairs and a cache seeded in both directions |
| Translator.TranslationEngine.InitializeCache | translation/translator.py:105-114 | the pair loop puts the id→en then the en→id entry of each pair, in order |
| Translator.TranslationEngine.ClearCache | translation/translator.py:327-331 | the cache is emptied and re-seeded; with room for thirty entries it holds exactly the seed entries |
| Translator.TranslationEngine.TranslateText | translation/translator.py:120-231 | the reply, the metrics and the new cache are those of the `Translate` specification |
| Translator.TranslationEngine.TranslateMiss | translation/translator.py:172-231 | after an exact miss, the reply, the metrics and the new cache are those of the fuzzy-then-model specification `Resolve` |
| Translator.TranslationEngine.TranslateWithModel | translation/translator.py:191-231 | the reply, the metrics and the new cache are those of the model-path specification `Generate` |
| Metrics.BoundedAppendKeepsNewest | core/metrics.py:46-51 | a bounded deque always holds the newest `cap` elements of everything appended |
| Metrics.TallyCounts | core/metrics.py:92-95 | a counter map holds exactly the labels that occurred, each with its number of occurrences |
| Metrics.TallyTotal | core/metrics.py:92-95 | the counts in a counter map add up to the number of events |
| Metrics.RecentAverageBounds | core/metrics.py:133-134 | the average of the last 100 times lies within any bounds that hold of every time |
| Metrics.HitRate | core/metrics.py:136-137 | the cache-hit rate lies in [0, 1], and it is 1 exactly when every recent entry is a hit |
| Metrics.ErrorRate | core/metrics.py:139 | the error rate is 0 with no requests, and errors/requests otherwise |
| Metrics.Quotient | core/metrics.py:134 | `a / n` for a positive divisor is exact: the quotient times the divisor gives back the dividend |
| Metrics.Sort | core/metrics.py:160 | `sorted`: sorted, and a permutation of the data |
| Metrics.RankIndex | core/metrics.py:163-166 | a percentile index is always below n |
| Metrics.PercentilesInData | core/metrics.py:157-167 | empty data gives all zeros; otherwise every percentile is an element of the data |
| Metrics.PercentilesOrdered | core/metrics.py:157-167 | p50 ≤ p90 ≤ p95 ≤ p99 |
| Metrics.PercentilesOfSingleton | core/metrics.py:157-167 | one sample is every percentile |
| Metrics.Prune | core/metrics.py:115-116 | pruning drops a prefix of entries all over 60 s old, and what remains starts within the last 60 s |
| Metrics.PruneKeepsBoundary | core/metrics.py:115 | an entry exactly 60 s old is kept |
| Metrics.PruneExact | core/metrics.py:115-116 | for a window in time order, pruning keeps exactly the entries at most 60 s old |
| Metrics.PruneWindow | core/metrics.py:115-116 | the `popleft` loop computes the pruned window |
| Metrics.RateWindow | core/metrics.py:115-125 | the `popleft` loop, the limit test and the `append` give the rate step's verdict and window |
| Metrics.RateStepBounded | core/metrics.py:120-125 | a window never holds more than the limit, nor more than 100 |
| Metrics.RateStepRecords | core/metrics.py:120-125 | an accepted request appends `now` to the pruned window; a rejection records nothing and leaves at least `limit` entries |
| Metrics.FullWindowRejects | core/metrics.py:120-121 | `limit` requests within the last minute reject the next one |
| Metrics.StaleWindowAccepts | core/metrics.py:115-125 | once every entry is over a minute old the client is accepted again, with a fresh window |
| Metrics.LimitAboveCapacityNeverRejects | core/metrics.py:60 | with a limit above the deque's capacity of 100 the limiter never rejects |
| Metrics.RecordStep | core/metrics.py:71-90 | appending to each bounded buffer keeps it equal to the newest part of the full history |
| Metrics.PairTotalsSpec | core/metrics.py:179-184 | the first loop's totals hold exactly the pairs that occur, each with its record count and summed model time |
| Metrics.AccumulatePairs | core/metrics.py:181-184 | the first loop computes the pair totals of the records |
| Metrics.AveragePairs | core/metrics.py:186-189 | the second loop sets every pair's average to its averaged total |
| Metrics.LanguagePairStatsSpec | core/metrics.py:177-191 | each pair's count is its number of records, and avg_time is the exact quotient total_time/count; the counts add up to the number of retained records |
| Metrics.HourlyDistributionSpec | core/metrics.py:193-201 | each hour's count is its number of records, and the counts add up to the number of retained records |
| Metrics.MetricsManager.constructor | core/metrics.py:41-60 | empty buffers, counters at zero, no client windows |
| Metrics.MetricsManager.RecordTranslation | core/metrics.py:71-90 | the record goes into all four bounded buffers, dropping the oldest when full; exactly one more request is counted and nothing else changes |
| Metrics.MetricsManager.RecordError | core/metrics.py:92-95 | the error's type count and the total each go up by exactly 1, and nothing else changes |
| Metrics.MetricsManager.CheckRateLimit | core/metrics.py:109-125 | the client's window becomes the rate step's window (an entry is created even on rejection); the verdict is the rate step's, and nothing else changes |
| Metrics.MetricsManager.HealthSnapshot | core/metrics.py:127-150 | the totals are the histories' lengths; the error rate is as specified; the hit rate lies in [0, 1]; the active clients are every client ever checked; the error breakdown sums to the total |
| Metrics.MetricsManager.DetailedPercentiles | core/metrics.py:152-171 | both percentile sets are ordered |
| Metrics.MetricsManager.LanguagePairStats | core/metrics.py:177-191 | the two loops compute the averaged pair totals of the retained records |
| Metrics.MetricsManager.HourlyDistribution | core/metrics.py:193-201 | the loop computes the hour tally of the retained records |
| Rooms.TargetFor | ws_router.py:352 | the target is `en` exactly when the source is `id`, and `id` otherwise |
| Rooms.DisconnectSpec | ws_router.py:49-63 | only the given connection leaves the given room. An emptied room loses its entry and its language; a room that does not empty, or an unknown one, keeps every language, and an unknown room changes no room. Other rooms keep theirs. The last-message record is cleared in every case |
| Rooms.DisconnectIdempotent | ws_router.py:49-63 | disconnecting twice is the same as once |
| Rooms.DisconnectWithinCapacity | ws_router.py:49-63 | disconnecting keeps every room within capacity |
| Rooms.DisconnectAllPrunes | ws_router.py:101-103 | disconnecting some members one by one removes exactly them, and the room if it empties |
| Rooms.BroadcastRemovesExactlyFailed | ws_router.py:87-103 | after a broadcast, exactly the members whose send failed are gone; everyone else and every other room stays, and an unknown room is a no-op |
| Rooms.BroadcastWithinCapacity | ws_router.py:87-103 | a broadcast keeps every room within capacity |
| Rooms.DuplicateStepRemembers | ws_router.py:76-85 | a payload is a duplicate exactly when it equals the stored one; otherwise it is stored |
| Rooms.RepeatsFlagged | ws_router.py:76-85 | in a run of identical payloads, the 2nd, 3rd, … are all flagged; the first is flagged only if it equals the stored one |
| Rooms.ConnectionManager.constructor | ws_router.py:27-31 | the maps and the subscriber set are empty |
| Rooms.ConnectionManager.Connect | ws_router.py:33-47 | the room entry is created if absent. The connection is added exactly when the room holds fewer than the maximum; otherwise the members are unchanged. Capacity is kept |
| Rooms.ConnectionManager.Disconnect | ws_router.py:49-63 | the new registry is the disconnect specification of the old one |
| Rooms.ConnectionManager.LeaveRoom | ws_router.py:51-58 | the room half of `disconnect`: the rooms and languages become those of the disconnect specification; the last-message record and the subscribers are unchanged |
| Rooms.ConnectionManager.SetRoomLanguage | ws_router.py:67-70 | only the room's language changes |
| Rooms.ConnectionManager.GetRoomLanguage | ws_router.py:72-74 | the room's language, `id` when none is set |
| Rooms.ConnectionManager.IsDuplicateMessage | ws_router.py:76-85 | the verdict and the new last-message map are those of the duplicate step |
| Rooms.ConnectionManager.BroadcastToRoom | ws_router.py:87-103 | the send loop then the removal loop: the members reached are those not failing, and the new registry is the broadcast specification |
| Rooms.SendAll | ws_router.py:93-99 | the send loop reaches exactly the members that do not fail, and collects exactly the failing members |
| Rooms.ConnectionManager.DisconnectEach | ws_router.py:101-103 | the clean-up loop leaves the registry as disconnecting the collected connections one by one specifies; the subscribers are unchanged |
| Rooms.ConnectionManager.BroadcastMetrics | ws_router.py:105-116 | the subscribers whose send failed are dropped, the rest are reached, and the rooms are unchanged |
| Rooms.ConnectionManager.AddMetricsClient | ws_router.py:417 | the subscriber is added |
| Rooms.ConnectionManager.RemoveMetricsClient | ws_router.py:427-431 | the subscriber is removed |
| Protocol.ControlTypes | ws_router.py:226-256 | exactly the types `language`, `ping`, `partial_speech` and `close_room` are handled |
| Protocol.LanguageFrame | ws_router.py:229-237 | a missing or empty language is handled but sets nothing; a non-empty one is the new language |
| Protocol.PingEchoesTimestamp | ws_router.py:239-245 | the pong echoes the request's timestamp, or null when it has none |
| Protocol.JsonFrameDecides | ws_router.py:203-208 | a frame that strips to `{…}` and decodes to an object with a `type` gets the type switch's verdict, whatever else it contains |
| Protocol.MarkerFrameDecides | ws_router.py:210-217 | otherwise, a frame is handled only when it contains the marker and the text after it decodes to an object; conversely, every such frame gets the type switch's verdict on that object |
| Protocol.PlainFrameNotControl | ws_router.py:200-224 | a frame with neither form is an ordinary payload |
| Protocol.PlaceholderReplies | ws_router.py:323-334 | the Indonesian phrase is answered with the English one; the English phrase gets a capitalised Indonesian reply, which is not itself a placeholder |
| Protocol.PlaceholderIgnoresSpace | ws_router.py:315-321 | a placeholder padded with whitespace is still a placeholder |
| Relay.ClientKey | ws_router.py:336-341 | `str(client_id)`: a non-empty string of decimal digits |
| Relay.ClientKeyInjective | ws_router.py:336-341 | distinct connections have distinct rate-limit keys |
| Relay.ForwardedFrames | ws_router.py:169-192 | a frame is translated exactly when it is not a control frame, differs from the sender's last payload, is no placeholder, and fits the pruned window |
| Relay.WindowNotConsulted | ws_router.py:169-192 | control frames, duplicates and placeholders are routed the same whatever the window holds, so they never spend budget |
| Relay.PlaceholderNeverTranslated | ws_router.py:180-184 | a padded placeholder is neither translated nor rate-limited |
| Relay.BusyClientRejected | ws_router.py:186-189 | an ordinary frame from a client with `limit` requests in the last minute is rejected |
| Relay.Relay.constructor | ws_router.py:130-140 | all five objects are freshly allocated. The registry, metrics and Firebase state are empty. The engine holds the fifteen seed pairs, and its cache is what seeding an empty cache of that size leaves: every seed entry when there is room for thirty |
| Relay.Relay.Join | ws_router.py:148-152 | as `Connect`, through the relay; the metrics subscribers are unchanged |
| Relay.Relay.Leave | ws_router.py:194-198 | as `Disconnect`; the metrics subscribers are unchanged, and the client's rate-limit window outlives the session |
| Relay.Relay.ProcessControl | ws_router.py:226-313 | language: only the room language changes, then an ack. Ping: a pong. Partial speech: nothing for empty text; otherwise a partial translation into the paired language is broadcast, and the cache becomes the one the partial `Translate` leaves. Close: a retried Firebase delete of the room when asked and initialised, with its back-off sleeps, then the closure is broadcast and acknowledged. No other action writes to Firebase. The metrics are untouched, and the duplicate record changes only through the broadcast's disconnects. (In the model: the `create_task` persistence of translations is left out.) |
| Relay.Relay.ProcessTranslation | ws_router.py:343-391 | the frame is translated from the room's language, recorded in the metrics, and broadcast to the room |
| Relay.Relay.HandleFrame | ws_router.py:160-192 | the route is `Dispatch` on the old state. A control frame does exactly what `ProcessControl` states for its action, and leaves the metrics alone. Duplicates and placeholders change only the duplicate record. A rejection also updates the window. A translated frame updates the window, cache, metrics and room through the translate, record and broadcast specifications. No route records an error, and only a control frame writes to Firebase (in the model; the `create_task` persistence is left out) |
| Relay.Relay.PushMetricsTick | ws_router.py:434-450 | with subscribers, every subscriber that does not fail gets the health snapshot and the detailed statistics, and failing ones are dropped. The statistics are both percentile sets, the error breakdown (the tally of every error), the averaged language-pair totals and the hourly tally of the retained records. With no subscribers, nothing is sent |
| FirebaseSync.IsControlMessage | firebase/sync.py:163-182 | false for empty text; otherwise true when some indicator occurs in the lower-cased text |
| FirebaseSync.UpperMarkerNeverMatches | firebase/sync.py:169 | the upper-case `CONTROL:` indicator never matches by itself |
| FirebaseSync.MarkerCaughtInAnyCase | firebase/sync.py:169-173 | any casing of the marker is still caught, by `control` |
| FirebaseSync.ControlIgnoresCase | firebase/sync.py:181-182 | the verdict does not depend on letter case |
| FirebaseSync.OrdinaryWordBlocked | firebase/sync.py:175 | the word `shopping` is blocked, because it contains `ping` |
| FirebaseSync.FirstSuccess | firebase/sync.py:186-190 | the first successful attempt, with every earlier attempt failed; None exactly when all attempts fail |
| FirebaseSync.AttemptsMade | firebase/sync.py:186-199 | at most `max_retries` attempts. Stopping early means the last attempt succeeded, and every attempt before the last failed |
| FirebaseSync.Backoff | firebase/sync.py:194-195 | the k-th sleep lasts 0.5·(k+1) s |
| FirebaseSync.DefaultBackoff | firebase/sync.py:184-199 | three failures sleep 0.5 s then 1.0 s |
| FirebaseSync.Retry | firebase/sync.py:184-199 | the loop succeeds exactly when some attempt succeeds. It makes the specified number of attempts and sleeps after every failed attempt but the last |
| FirebaseSync.RetryVerdict | firebase/sync.py:184-199 | the retry succeeds exactly when some attempt among the first `max_retries` succeeds |
| FirebaseSync.RoomOpening | firebase/sync.py:106-113 | the opening message pairs the source with `en` exactly when the source is `id` |
| FirebaseSync.FirebaseManager.constructor | firebase/sync.py:22-24 | not initialised, nothing written |
| FirebaseSync.FirebaseManager.Initialize | firebase/sync.py:26-42 | initialised afterwards exactly when it already was or the SDK set-up succeeds |
| FirebaseSync.FirebaseManager.Cleanup | firebase/sync.py:44-52 | not initialised afterwards |
| FirebaseSync.FirebaseManager.WithRetry | firebase/sync.py:184-216 | the attempts and sleeps of the retry loop are logged |
| FirebaseSync.FirebaseManager.SaveTranslation | firebase/sync.py:58-97 | no write when not initialised, nor when either text is a control message; otherwise one retried write of the message |
| FirebaseSync.FirebaseManager.CreateRoom | firebase/sync.py:99-126 | no write when not initialised; otherwise one retried write of the opening message |
| FirebaseSync.FirebaseManager.DeleteRoom | firebase/sync.py:128-146 | no write when not initialised; otherwise one retried delete |
| FirebaseSync.FirebaseManager.GetHealthStatus | firebase/sync.py:218-243 | not initialised gives `not_initialized` with an error. Connected exactly when initialised and the probe says up. An error exactly when not initialised or the probe failed |

## Left out

- WebSocket and HTTP I/O is left out: `accept`, `receive_text`, `send_json`
  and `close`, the FastAPI routes, and `api/routes.py`. Replies and
  broadcasts are returned values, and send failures are the `failing` set.
- A send to the requesting client that fails is not modelled. In the
  source such a failure inside a control handler makes
  `handle_control_message` return false, so the frame falls through to
  the translation pipeline. The model assumes replies to the sender
  succeed.
- Concurrency is left out: `asyncio`, the `create_task` persistence of
  each translation (ws_router.py:364-372), and the endless
  `metrics_endpoint` and `metrics_pusher` loops. One push tick is
  modelled, as `PushMetricsTick`.
- Exceptions escaping `process_translation_message` are left out: there
  is no `record_error("translation_error")` path. Nothing in the modelled
  path raises, because `translate_text` catches its own errors.
- Components that are absent (`translation_engine`, `metrics_manager` or
  `firebase_manager` being `None`) are not modelled. A relay always
  holds all four.
- The neural model, the model loader and `_perform_translation`'s
  internals are left out. `_perform_translation` is the uninterpreted
  `Model` parameter.
- JSON decoding is the abstract `Parser`. A frame's fields are modelled
  as a decoded map.
- A non-string `language` value is treated as
  no language. The source stores any truthy value. A non-string
  `partial_speech` text or language is treated as `""` or `id`.
- Timing is left out: `time.time()`, `round(...)`, `datetime.now()` and
  `isoformat()`, uptime, the memory usage read through `psutil`, and the
  timestamp and metrics fields of stored messages. Durations come in
  through `Clock`, the rate-limit time is `now`, and a record's hour is a
  field.
- Metrics.RankIndex: the float index `int(n * 0.95)` is modelled as
  `n * 95 / 100` in exact arithmetic. Floating-point rounding of the
  product is not captured.
- Averages and rates are exact `real` quotients (`Quotient`). Python's
  floating-point division and its rounding are not captured.
- Metrics.RateStepRecords requires a limit of at most 100. Above the
  deque's capacity, the append drops the oldest entry instead.
  `LimitAboveCapacityNeverRejects` covers that case.
- Metrics.MetricsManager.HealthSnapshot does not state a bound on the
  average translation time. `RecentAverageBounds` states one separately.
- `get_cache_stats`, `record_performance`, `get_room_data` and the
  start/stop hooks of `MetricsManager` are left out. They are reads,
  logging or lifecycle calls outside the relay's decisions.
- Configuration is left out. `MAX_CONNECTIONS_PER_ROOM`,
  `RATE_LIMIT_PER_MINUTE` and `TRANSLATION_CACHE_SIZE` are constructor
  parameters. A cache size of 0 is excluded, because `put` would then
  fail in the source.
- Logging output is not modelled.
- Case folding is ASCII-only. `Lower` folds only `A`–`Z`, while Python's
  `str.lower` also folds other scripts.
- The Firebase SDK is abstract. Each `set`/`delete` attempt's outcome is
  a supplied function, and set-up success is `sdkReady`. A failed
  `initialize` leaves the manager uninitialised instead of re-raising.
