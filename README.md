# Live HLS poller and segment downloader, modelled in Dafny

This project models the sequential decision logic of a Twitch live-stream
watcher written in Go. The watcher does five things:

- It fetches an access token and signature for a channel.
- It asks the usher service for the channel's master playlist and picks the
  variant whose `Video` label is the desired one.
- It polls that variant's media playlist.
- It queues every segment it has not seen before. A 1024-entry LRU cache
  decides what "seen before" means.
- A downloader drains the queue, copies each successful body to the output
  and reports progress.

The repository holds three successive versions of the poller. Each one is
its own module here, and each is an imperative class whose fields are the
ones the Go code updates:

- `PlaylistManagerPoller` models `playlist_manager.go`, with bounded
  five-attempt re-resolution and `stop` closing both channels.
- `PlaylisterPoller` models `playlister.go`, with a single re-resolution
  attempt and only `Status` ever closed.
- `StreamingWatcher` models `streaming.go`, with an unbounded master retry
  and its own byte-copying `Downloader`.

`SegmentDownloader` models `downloader.go`, the reporting downloader.

The shared modules are:

- `Hls`: replies, playlists, the token reply, and the HTTP client as a
  scripted sequence of replies.
- `Urls`: `url.Parse`, `path.Dir` and the segment URL the pollers format.
- `Lru`: the segment cache, as its keys from most to least recently used.
- `Segments`: the per-cycle dedup-and-enqueue step `Misses` and the session
  invariant it keeps.
- `Variants`: the variant-selection scan that all three versions share.
- `Runs`: the bookkeeping for a run of polling-loop iterations. This is
  how many replies and `Done` flags they used, the segments they walked,
  and the variant they leave. The loop methods use it to tie what they did
  to a trace function of the replies (`PollTrace`, `WatchTrace`).

Network replies come from a script (`Hls.Client.pending`) that is consumed
in order. Every URL requested is logged in `requested`. When the script
runs out, the run ends with `NoMoreReplies`. This is what bounds the
otherwise endless poll loops.

Response bodies are already-decoded documents. A body of the wrong kind
stands for the failed type assertion. A Go nil dereference is a `Panic`
outcome or a `Panicked` exit. Sleeps are recorded, in seconds, in a ghost
`sleeps` log. Channels are sequences:

- `output` is the queue of segment URLs.
- `sent` is the interleaved Output/Status sends of `streaming.go`.
- `statuses` is the downloader's progress reports.
- `statusClosed` and `outputClosed` record the closes.
- The `select` on the done channel reads the next element of a
  `doneReady` script.

## Model

| member | source | states |
|---|---|---|
| Hls.Client.Do | downloader.go:42-43 | the next scripted reply is consumed and the URL logged; with no reply left nothing changes and None is returned |
| Hls.TokenReply | playlist_manager.go:79-112 | a token is obtained exactly for a 200 reply whose body is a token document, and it carries that document's token and signature; a nil response panics |
| Hls.CopiedAppend | streaming.go:215-220 | the bytes written for two runs of downloads are those of the first run followed by those of the second |
| Hls.RepeatAppend | streaming.go:117 | n repeated sleeps or requests followed by m more are n + m of them |
| Variants.LastMatch | playlist_manager.go:137-146 | the index found holds a matching entry and no later entry matches; None exactly when no entry matches |
| Variants.Selected | playlist_manager.go:137-152 | the chosen variant has the desired label and is one of the entries; none is chosen exactly when no entry has that label |
| Variants.Scan | playlist_manager.go:134-146 | the label list is as long as the variant list, holds each entry's Video label at its index and "" for nil entries, and the target is the selected variant |
| Variants.SelectedIgnoresEarlierEntries | playlister.go:97-106 | when several entries match, the last one wins whatever precedes it |
| Variants.MasterReply | playlister.go:76-116 | getVariant succeeds exactly on a 200 master playlist that has the label, returning the selected entry; a transport error, a non-200 status or a missing label is an error even after a successful fetch; a nil response or a non-master body panics |
| Urls.ParseFormat | playlister.go:137 | parsing the text scheme://host/path of a well-formed URL gives back its host and path, and its scheme lower-cased |
| Urls.ParseFormatLower | streaming.go:140 | with no capital letter in the scheme, parsing the text of a well-formed URL gives back exactly that URL |
| Urls.ParseUserinfo | playlister.go:169 | userinfo before an '@' in the authority is dropped: the host is what follows the last '@' |
| Urls.ParseOpaque | playlister.go:137 | a scheme followed by anything but '/' gives an opaque URL with no host and an empty path |
| Urls.ParseSchemeRelative | playlister.go:137 | text starting with "//" and no scheme has an authority: an empty scheme, the host, and the path |
| Urls.ParseQuery | playlist_manager.go:115 | a query after text with no '?' or '#' is cut off and does not change the parse |
| Urls.TokenUrlParse | playlist_manager.go:80 | the token request for a channel parses as http, host api.twitch.tv, path /api/channels/<channel>/access_token |
| Urls.UsherUrlParse | playlist_manager.go:115 | the usher URL parses as http, host usher.twitch.tv, path /api/channel/hls/<channel>.m3u8; the credential sits in the query, which the path never sees |
| Urls.DirSpec | playlister.go:174 | the directory is "." for a path without '/'; otherwise it is the part of the path before its last '/', or "/" when that '/' is the first character |
| Urls.SegmentUrlShape | playlister.go:186 | the queued URL starts with scheme://host and ends with '/' followed by the segment URI |
| Urls.SegmentUrlSibling | playlister.go:174-186 | for a playlist at dir/file the segment is queued as scheme://host + dir + "/" + segment |
| Urls.SegmentUrlAtRoot | streaming.go:152-164 | a playlist at the root of the host yields a doubled slash before the segment |
| Urls.SegmentUrlExample | playlister.go:174-186 | s.ts listed in http://h/d/i.m3u8 is queued as http://h/d/s.ts |
| Urls.AbsoluteSegmentIsJoined | streaming.go:164 | no segment URI is passed through unchanged: an absolute URI is still joined onto the playlist directory |
| Urls.JoinSpec | playlister.go:181-192 | each URL of a batch is the segment URL of the entry at the same index under the current playlist URL |
| Urls.JoinEachSpec | playlister.go:157-192 | the k-th URL sent is the segment URL of the k-th queued URI joined onto the k-th base, whatever the bases are |
| Urls.JoinEachAppend | playlister.go:147-196 | sending two runs of joined URLs one after the other sends the join of the two runs put together |
| Urls.JoinIsJoinEach | playlister.go:174-186 | a batch from one playlist is the pairwise join under a constant base |
| Urls.JoinEachExtend | playlister.go:181-192 | one more batch from the playlist at base extends the pairwise join by that batch under that base |
| Lru.New | playlist_manager.go:173 | the new cache is empty |
| Lru.Get | playlist_manager.go:273 | hit exactly when the key is cached; the key becomes most recent and the key set is unchanged |
| Lru.Add | playlist_manager.go:278 | the key becomes most recent; the cache stays within 1024 distinct keys; no key but the new one appears; a key is lost only when a new key is added to a full cache, and then it is the least recent one |
| Lru.GetAges | playlist_manager.go:273 | a lookup of another key keeps a cached key and ages it by at most one place |
| Lru.AddAges | playlist_manager.go:278 | adding another key keeps a key that is not among the oldest and ages it by at most one place |
| Segments.Present | playlist_manager.go:269-272 | the non-nil segment URIs of a playlist, in order |
| Segments.Misses | playlist_manager.go:269-281 | one dedup cycle keeps the cache well-formed and queues no more URIs than the playlist lists |
| Segments.MissesAppend | playlist_manager.go:203-285 | walking two playlists in a row queues what the first queues, then what the second queues from the cache the first left |
| Segments.MissesInOrder | playlister.go:181-192 | the URIs queued in one cycle are a subsequence of the playlist's non-nil segments, in playlist order |
| Segments.MissesCover | playlist_manager.go:269-281 | every non-nil segment was either already cached or is queued, and everything the cache now holds was cached before or queued |
| Segments.MissesSkipCached | streaming.go:159-172 | a URI cached at the start of a cycle, recent enough that the cycle's segments cannot push it out, is not queued again and stays cached |
| Segments.MissesRecent | playlist_manager.go:269-281 | with at most 1024 segments, each URI queued in the cycle is still cached among the most recent entries |
| Segments.MissesRefresh | playlist_manager.go:271-279 | after a cycle over at most 1024 entries every URI the playlist lists is cached among the most recent entries, whether it was queued or found |
| Segments.ListedNotRequeued | streaming.go:159-172 | no URI listed in one playlist is queued by the next cycle when the two playlists together list at most 1024 entries, whatever the cache held before |
| Segments.MissesDistinct | playlist_manager.go:269-281 | with at most 1024 segments, no URI is queued twice in one cycle |
| Segments.SessionStart | playlist_manager.go:173 | the session invariant holds for an empty cache with nothing queued |
| Segments.SessionStep | playlist_manager.go:203-285 | each further poll cycle keeps the session invariant: the queue follows playlist order, every URI seen is queued, and, while at most 1024 segments have been processed, no URI is queued twice |
| Segments.SessionOf | playlist_manager.go:173-285 | the queue and cache that walking any sequence of playlists from an empty cache produces satisfy the session invariant |
| Segments.SessionNoRequeue | playlist_manager.go:203-285 | however long the session, a cycle queues none of the URIs listed by the playlist walked just before it, when the two list at most 1024 entries together |
| Runs.Snoc | playlist_manager.go:203-285 | one more loop iteration adds its replies, its Done flags and its walked segments to the totals, and the loop goes on with the variant it left |
| PlaylistManagerPoller.Resolve | playlist_manager.go:182-200 | at most the budget of getVariant calls, and never more than there are replies |
| PlaylistManagerPoller.ResolveSpec | playlist_manager.go:235-254 | every attempt before the outcome failed; the outcome is an error exactly when five attempts all fail, which uses exactly five requests; otherwise it is the result of the last attempt |
| PlaylistManagerPoller.ResolveAfterFailures | playlist_manager.go:237-251 | k failed attempts leave the remaining resolution to run with the budget reduced by k |
| PlaylistManagerPoller.DecodeMedia | playlist_manager.go:262-267 | a media playlist is decoded exactly when the reply carries one, with its target duration and segments; any other reply panics |
| PlaylistManagerPoller.PollOnce | playlist_manager.go:210-267 | one pass reads at most the replies available, fetches once before decoding, and aborts only by failed re-resolution, a panic or the end of the replies |
| PlaylistManagerPoller.PollOnceSpec | playlist_manager.go:210-267 | a good fetch decodes with one request and no sleep; segments only come from the body of the variant's own reply; re-resolution fails exactly when the fetch failed and the next five getVariant calls fail, using six requests and five 1-second sleeps; a transport error always aborts; a re-resolved variant has the desired label |
| PlaylistManagerPoller.Opening | playlist_manager.go:159-200 | the preamble uses no more replies than there are |
| PlaylistManagerPoller.Acquired | playlist_manager.go:184-200 | polling starts exactly when the variant loop found a variant, and with that variant; the loop's error is exactly the VariantNotAcquired ending |
| PlaylistManagerPoller.OpeningSpec | playlist_manager.go:159-200 | the preamble ends with a token error exactly when the first reply is one; it gives up on the variant exactly when the token was obtained and five getVariant calls fail; a variant it finds has the desired label |
| PlaylistManagerPoller.SelectOnce | playlist_manager.go:204-285 | one select evaluation uses no more replies and Done flags than there are, and one that goes on uses at least one reply |
| PlaylistManagerPoller.PollTrace | playlist_manager.go:203-285 | the whole polling loop uses no more replies and Done flags than there are |
| PlaylistManagerPoller.RanSnoc | playlist_manager.go:203-285 | a run of select evaluations extended by the one the state it left makes is still a run |
| PlaylistManagerPoller.RanTail | playlist_manager.go:203-285 | after its first evaluation a run goes on as a run from the state that evaluation left |
| PlaylistManagerPoller.RanOne | playlist_manager.go:204-285 | a single evaluation is a run |
| PlaylistManagerPoller.RanJoin | playlist_manager.go:203-285 | extending a run adds the evaluation's replies, Done flags and segments to the totals and moves on to its variant |
| PlaylistManagerPoller.RanTrace | playlist_manager.go:203-285 | a run whose last evaluation alone ends the loop has exactly the loop's trace: its replies, its Done flags, its exit and its segments |
| PlaylistManagerPoller.TraceExits | playlist_manager.go:203-285 | the polling loop ends only by Done, a failed re-resolution, a panic or the end of the replies |
| PlaylistManagerPoller.HealthyStream | playlist_manager.go:209-284 | with only 200 media replies and no Done, the loop polls until the replies run out and walks every playlist in order without re-resolving |
| PlaylistManagerPoller.DoneStops | playlist_manager.go:204-208 | the loop ends with Stopped exactly when the last Done flag it read was set |
| PlaylistManagerPoller.PlaylistManager.constructor | playlist_manager.go:44-69 | a manager with no token, nothing queued and both channels open |
| PlaylistManagerPoller.PlaylistManager.Stop | playlist_manager.go:289-291 | both the status and the output channels are closed |
| PlaylistManagerPoller.PlaylistManager.GetToken | playlist_manager.go:79-112 | one token request; on success token and signature are the reply's, and on failure they are unchanged |
| PlaylistManagerPoller.PlaylistManager.GetVariant | playlist_manager.go:114-157 | one usher request with the current token and signature, and the outcome is MasterReply of its reply |
| PlaylistManagerPoller.PlaylistManager.AcquireVariant | playlist_manager.go:182-200 | the outcome is Resolve of the replies with budget 5; the usher URL is requested once per attempt; a pause of 1s follows each failure only in re-resolution; an error means exactly five requests; success has the desired label |
| PlaylistManagerPoller.PlaylistManager.Fetch | playlist_manager.go:214-256 | one pass of the retry loop's body: the variant URI, then the usher URL once per re-resolution attempt, with the abort, the response to decode and the next variant as PollOnce gives them |
| PlaylistManagerPoller.PlaylistManager.PollCycle | playlist_manager.go:210-267 | the retry loop runs its body once and leaves; the counter stays 0, so the abort at line 213 is never taken; the step, the next variant, the requests and the sleeps are exactly those PollOnce gives |
| PlaylistManagerPoller.PlaylistManager.EnqueueSegments | playlist_manager.go:269-281 | the output grows by exactly the cycle's misses, raw URIs, and the cache becomes Misses' cache |
| PlaylistManagerPoller.PlaylistManager.PollPass | playlist_manager.go:209-284 | an abort queues nothing; a continuing pass queues exactly the misses of the decoded playlist and updates the cache; a failed re-resolution closes both channels |
| PlaylistManagerPoller.PlaylistManager.Select | playlist_manager.go:204-285 | one select evaluation is exactly SelectOnce of the replies and Done flags; a Done closes both channels; otherwise the output grows by the misses of the segments walked |
| PlaylistManagerPoller.PlaylistManager.Loop | playlist_manager.go:203-285 | the loop's evaluations form a run of which only the last ends it; the output grows by the misses of one cache over every segment walked |
| PlaylistManagerPoller.PlaylistManager.Poll | playlist_manager.go:202-285 | the exit, the segments walked and the replies and Done flags used are exactly PollTrace's; the output grows by the misses of one fresh cache over those segments, which follow playlist order, cover every segment seen, and are distinct while at most 1024 segments were processed; a teardown closes both channels |
| PlaylistManagerPoller.PlaylistManager.Start | playlist_manager.go:159-200 | the ending and the replies used are Opening's; a token failure stops after exactly the token request; the variant is not acquired exactly when five getVariant calls fail, after five usher requests and no sleep; polling starts only with the desired label |
| PlaylistManagerPoller.PlaylistManager.Run | playlist_manager.go:159-287 | the ending is Opening's, or else PollTrace's over the replies Opening left; the queue is the misses of one fresh cache over the segments of that trace, in playlist order, covering them, and distinct within 1024 segments; every teardown closes both channels |
| PlaylisterPoller.PassOnce | playlister.go:153-172 | one pass reads at most the replies available and aborts only by failed re-resolution, a panic or the end of the replies |
| PlaylisterPoller.PassOnceSpec | playlister.go:153-179 | at most two requests; a media playlist is decoded exactly for a 200 media reply; a non-200 fetch triggers exactly one getVariant, whose success restarts the cycle with the new variant and nothing decoded, and whose error ends the loop; a transport error panics |
| PlaylisterPoller.Opening | playlister.go:118-137 | the preamble uses no more replies than there are |
| PlaylisterPoller.SelectOnce | playlister.go:148-195 | one evaluation uses no more replies and Done flags than there are; one that goes on uses a reply; it walks at most one playlist, fetched for the current variant, and none when it ends the loop |
| PlaylisterPoller.PollTrace | playlister.go:147-196 | the whole polling loop uses no more replies and Done flags than there are |
| PlaylisterPoller.RanSnoc | playlister.go:147-196 | a run of select evaluations extended by the one the state it left makes is still a run |
| PlaylisterPoller.RanTail | playlister.go:147-196 | after its first evaluation a run goes on as a run from the state that evaluation left |
| PlaylisterPoller.RanOne | playlister.go:148-195 | a single evaluation is a run |
| PlaylisterPoller.RanJoin | playlister.go:147-196 | extending a run adds the evaluation's replies, Done flags and walks to the totals and moves on to its variant |
| PlaylisterPoller.RanTrace | playlister.go:147-196 | a run whose last evaluation alone ends the loop has exactly the loop's trace |
| PlaylisterPoller.TraceExits | playlister.go:147-196 | the polling loop ends only by Done, a failed re-resolution, a panic or the end of the replies |
| PlaylisterPoller.TraceVariants | playlister.go:157-170 | every playlist walked was fetched for the starting variant or for a re-resolved one with the desired label |
| PlaylisterPoller.BasesSpec | playlister.go:169-186 | there is one base per URI queued, and each base is the parsed URL of a playlist walked |
| PlaylisterPoller.FlattenAppend | playlister.go:147-196 | the segments of two runs of walks are those of the first followed by those of the second |
| PlaylisterPoller.BasesAppend | playlister.go:147-196 | walking more playlists adds their bases after the earlier ones, from the cache the earlier ones left |
| PlaylisterPoller.BasesOfOne | playlister.go:174-186 | every URI queued from one playlist gets that playlist's parsed URL as its base |
| PlaylisterPoller.WalkOne | playlister.go:174-192 | one more walk adds its misses, from the cache the earlier walks left, to the queue, and the same number of copies of its playlist URL to the bases |
| PlaylisterPoller.QueuedUnder | playlister.go:137-186 | every queued URL is joined onto the starting variant's URL or onto that of a re-resolved variant with the desired label |
| PlaylisterPoller.Playlister.constructor | playlister.go:33-46 | a playlister with no token, nothing queued and both channels open |
| PlaylisterPoller.Playlister.CloseStatus | playlister.go:126 | the status channel is closed |
| PlaylisterPoller.Playlister.GetToken | playlister.go:48-74 | one token request; on success token and signature are the reply's, and on failure they are unchanged |
| PlaylisterPoller.Playlister.GetVariant | playlister.go:76-116 | one usher request with the current token and signature, and the outcome is MasterReply of its reply |
| PlaylisterPoller.Playlister.PollStep | playlister.go:153-172 | the step is PassOnce's; the variant URI is requested first and the usher URL second when re-resolving |
| PlaylisterPoller.Playlister.EnqueueSegments | playlister.go:181-192 | the output grows by the misses joined onto the current playlist URL, and the cache becomes Misses' cache |
| PlaylisterPoller.Playlister.PollPass | playlister.go:153-195 | an abort queues nothing; a re-resolution switches to a variant with the desired label and decodes nothing; otherwise the joined misses are queued |
| PlaylisterPoller.Playlister.Select | playlister.go:148-195 | one select evaluation is exactly SelectOnce of the replies and Done flags; a Done closes Status; otherwise the output grows by the misses of the playlist walked, joined onto the current variant's URL |
| PlaylisterPoller.Playlister.Advance | playlister.go:148-195 | one evaluation inside the loop extends the queue, the bases and the output by that evaluation's walk |
| PlaylisterPoller.Playlister.Loop | playlister.go:147-196 | the loop's evaluations form a run of which only the last ends it; the output is each queued URI joined onto the base of the walk it was found in |
| PlaylisterPoller.Playlister.Poll | playlister.go:146-196 | the exit, the playlists walked and the replies and Done flags used are exactly PollTrace's; the output is each queued URI joined onto the URL of the playlist it was found in; the queue follows playlist order, covers every segment seen, and holds no duplicates within 1024 segments; every exit closes Status |
| PlaylisterPoller.Playlister.Start | playlister.go:118-137 | the ending and the replies used are Opening's; a token failure ends after exactly the token request; the variant is not found exactly when the single getVariant fails; polling starts with the variant getVariant returned, which has the desired label |
| PlaylisterPoller.Playlister.Run | playlister.go:118-198 | the ending is Opening's, or else PollTrace's over the replies Opening left; the output is each queued URI joined onto the URL of the playlist it was found in; a token or variant failure queues nothing; every teardown closes Status and Output is never closed |
| StreamingWatcher.LenientTokenReply | streaming.go:77-103 | a token is obtained for any reply whose body is a token document, whatever its status code; a nil response panics |
| StreamingWatcher.LenientTokenVersusStrict | streaming.go:86-88 | this getToken differs from the strict one exactly on a non-200 reply that carries a token document |
| StreamingWatcher.Settle | streaming.go:120-140 | the master loop's exit either yields the selected variant with the desired label or panics; there is no error outcome |
| StreamingWatcher.SettleVersusMasterReply | streaming.go:120-140 | on a reply that ends the retry loop, every case in which the strict getVariant would return an error panics here instead |
| StreamingWatcher.Resolve | streaming.go:115-118 | the master request loop never returns an error and reads no more replies than exist |
| StreamingWatcher.ResolveSpec | streaming.go:115-118 | the loop runs out of replies exactly when every reply is a non-200 one; otherwise it pauses 5s once per retried reply and settles on the first reply that is not retried |
| StreamingWatcher.ResolveLabel | streaming.go:120-140 | a variant the master loop settles on has the desired label |
| StreamingWatcher.ResolveSkip | streaming.go:115-118 | k non-200 replies in front add k requests and k pauses, and the outcome is decided by what follows them |
| StreamingWatcher.NoRetryCeiling | streaming.go:115-118 | any number of non-200 replies followed by an answer makes exactly that many pauses, then settles on the answer |
| StreamingWatcher.PassStep | streaming.go:142-157 | a reply is retried exactly when it is a non-200 status; a decoded media playlist comes from a 200 reply; anything else, a transport error included, panics |
| StreamingWatcher.WatchTrace | streaming.go:142-175 | the polling loop uses no more replies than there are and ends only by a panic or the end of the replies |
| StreamingWatcher.WatchTraceSpec | streaming.go:142-175 | the loop runs out of replies exactly when no reply panics, and then it used every reply and slept once per reply; otherwise it ends at the first reply that panics, having slept once for every reply before it |
| StreamingWatcher.ThenThen | streaming.go:142-175 | two stretches of the loop, one after the other, add up |
| StreamingWatcher.RunTrace | streaming.go:105-177 | the goroutine uses no more replies than there are |
| StreamingWatcher.Continue | streaming.go:120-177 | after the master loop the goroutine uses no more replies than there are |
| StreamingWatcher.LaunchTrace | streaming.go:58-75 | the watcher uses no more replies than there are |
| StreamingWatcher.LaunchTraceSpec | streaming.go:58-75 | the watcher ends with the token error exactly when the token reply is an error; segments are walked only after a token was obtained and the master loop settled on a variant |
| StreamingWatcher.Queueing | streaming.go:168 | the Status message names the segment URI, after "Queueing " |
| StreamingWatcher.Announcement | streaming.go:164-169 | one segment that missed the cache yields one send, or two when there is a Status channel |
| StreamingWatcher.AnnouncementSpec | streaming.go:164-169 | the joined URL goes first; a Status message is sent exactly when there is a Status channel, and then it is the Queueing message for that URI |
| StreamingWatcher.AnnouncedAppend | streaming.go:159-172 | the sends for two runs of misses are those of the first run followed by those of the second |
| StreamingWatcher.AnnouncedWithStatus | streaming.go:163-170 | with a status channel each queued URI yields exactly two sends: the joined URL to Output, then its "Queueing" message to Status |
| StreamingWatcher.AnnouncedOutputs | streaming.go:159-172 | with or without a status channel, the Output sends are exactly the misses joined onto the playlist URL |
| StreamingWatcher.PlaylistWatcher.constructor | streaming.go:58-64 | a watcher with no token and nothing sent |
| StreamingWatcher.PlaylistWatcher.GetToken | streaming.go:77-103 | one token request; the outcome is the lenient token reply; on success token and signature are updated, and on failure they are unchanged |
| StreamingWatcher.PlaylistWatcher.AwaitMaster | streaming.go:115-118 | the usher URL is requested until a reply is not retried, with a 5s sleep after each retried one; the replies retried are exactly those before the one returned |
| StreamingWatcher.PlaylistWatcher.AcquireVariant | streaming.go:108-140 | the outcome, the requests and the sleeps are exactly Resolve's |
| StreamingWatcher.PlaylistWatcher.Announce | streaming.go:164-169 | one queued segment: the joined URL, then the "Queueing" message when Status is present |
| StreamingWatcher.PlaylistWatcher.EnqueueSegments | streaming.go:159-172 | the sends grow by exactly the announcements of the cycle's misses, and the cache becomes Misses' cache |
| StreamingWatcher.PlaylistWatcher.PollPass | streaming.go:143-174 | one request for the same variant URI; a non-200 reply sleeps 5s and queues nothing; a media playlist sleeps its target duration and announces its misses; anything else panics and sends nothing; what it does is the first step of WatchTrace |
| StreamingWatcher.PlaylistWatcher.Tick | streaming.go:143-174 | one pass inside the loop is the first step of WatchTrace and extends the queue and the sends by that pass's announcements |
| StreamingWatcher.PlaylistWatcher.Advance | streaming.go:142-175 | one pass keeps the loop's progress in step with WatchTrace; the pass that ends the loop completes WatchTrace |
| StreamingWatcher.PlaylistWatcher.Stream | streaming.go:142-175 | the loop's exit, segments, replies used and sleeps are exactly WatchTrace's; every request is for the variant URI; the sends announce the misses of one fresh cache over the segments walked |
| StreamingWatcher.PlaylistWatcher.Follow | streaming.go:120-177 | after the master loop, the exit, segments, replies used and sleeps are Continue's; without a variant nothing is sent |
| StreamingWatcher.PlaylistWatcher.Run | streaming.go:105-177 | the exit, segments, replies used and sleeps are exactly RunTrace's; without a variant nothing is sent; otherwise the sends announce the queued URIs joined onto the chosen variant, which has the desired label; the run ends only by a panic or the end of the replies |
| StreamingWatcher.PlaylistWatcher.Launch | streaming.go:58-75 | the exit, segments, replies used and sleeps are exactly LaunchTrace's; the watcher stops with a token error exactly when the token reply is one, after exactly the token request, sending nothing and sleeping nothing |
| StreamingWatcher.Downloader.constructor | streaming.go:184-192 | a downloader over the work queue with nothing written |
| StreamingWatcher.Downloader.Run | streaming.go:194-225 | each work URI is requested in order until the work or the replies run out; the output is exactly the bodies of the 200 replies in work order, and failed fetches write nothing |
| SegmentDownloader.CopyRate | downloader.go:66-68 | the rate is the bytes per second of the copy rounded down: rate × elapsed ≤ bytes × 10^9 < (rate + 1) × elapsed |
| SegmentDownloader.Reports | downloader.go:41-74 | no more status reports than replies (what they carry is stated by the lemmas below) |
| SegmentDownloader.TotalIsCopied | downloader.go:61-62 | bytesTotal equals the number of bytes copied over all successful segments |
| SegmentDownloader.ReportsNameDeliveredUris | downloader.go:41-74 | the LastFile values reported are exactly the successfully fetched URIs, in work order, one per success |
| SegmentDownloader.ReportsBoundedByTotal | downloader.go:70-74 | no report exceeds the running total, and the last report carries it |
| SegmentDownloader.TotalsNeverDecrease | downloader.go:61-62 | the reported bytesTotal values never decrease |
| SegmentDownloader.SkipChangesNothing | downloader.go:45-58 | a failed fetch writes no bytes and leaves the total, the rate and the reports unchanged |
| SegmentDownloader.DeliveryReport | downloader.go:60-74 | a successful fetch appends its bytes, adds its size to the total, sets the rate to bytes/elapsed only when elapsed is nonzero, and emits one report naming its URI |
| SegmentDownloader.RateStartsAtZero | downloader.go:39 | until a success with nonzero elapsed time, bytesPerSecond is 0 |
| SegmentDownloader.Downloader.constructor | downloader.go:17-23 | a downloader over the work queue with nothing written or reported |
| SegmentDownloader.Downloader.Handle | downloader.go:42-76 | one work item extends the output, the reports, the total and the rate exactly as the specification functions say for one more reply |
| SegmentDownloader.Downloader.Run | downloader.go:29-79 | the work queue is drained in order; the output is the bodies of the successes and the reports are one per success, with the running total, the rate and the URI |

## Left out

- HTTP transport, the token JSON decoding and the m3u8 decoding (`github.com/kz26/m3u8`) are foreign I/O and library calls. Replies are scripted and bodies are already-decoded `Doc` values.
- Hls.Response has no case for an error that comes together with a non-nil response. `http.DefaultClient.Do` returns one when its redirect check fails, for example after 10 redirects. The model does not capture what the three poll loops then do:
  - playlister.go:157-171 logs the status without panicking, makes its single re-resolution and goes on;
  - streaming.go:115-118 and streaming.go:146-149 log it, sleep 5 s and retry.

  The model's `PassOnce`, `PassStep`, `Resolve` and `WatchTrace` only see a transport error with no response, which panics. getToken, getVariant and the downloaders treat any error as an error or a skip, so they are unaffected. So is playlist_manager.go, whose later decode of the closed body panics anyway.
- Goroutines, blocking channel semantics and `select` are concurrency. A `select` on the done channel reads the next `doneReady` element. A run ends when the reply script runs out, instead of blocking forever.
- `stop` (playlist_manager.go:289-291) runs at most once per run. Every call, at lines 169, 187, 206, 215 and 240, is followed at once by `return` or `break loop`. `Stop` therefore only records that both channels are closed, and no close of an already-closed channel arises.
- Sleep durations are logged as ghost seconds. `time.Now`, logging, the "Variants found" message and the Client-ID header are left out.
- `base_url.String()` at playlist_manager.go:116, playlister.go:78 and streaming.go:110 is not modelled. The request is logged with the formatted usher text. `Urls.UsherUrlParse` states what `url.Parse` makes of that text.
- `Urls.Parse` covers the scheme, the host and the path only. It leaves out the following parts of `url.Parse`:
  - percent-decoding of the path and the `RawPath` it keeps;
  - the port, host validation and bracketed IPv6 hosts;
  - the query and the fragment, which it cuts off and drops;
  - the parse errors: a leading ':', control bytes, a bad percent escape, or a colon in the first segment of a relative reference. Go returns a nil URL for these, and the pollers then panic on its first use. The model parses such text anyway.
- Urls.ParseFormat: the round trip gives the scheme back lower-cased, as `url.Parse` does. The exact round trip needs a scheme without capitals (`Urls.ParseFormatLower`).
- `Urls.Dir` is `path.Dir` without the `path.Clean` step. It agrees with Go for paths with no doubled '/', no trailing '/' and no "." or ".." element, which is the shape of playlist paths.
- The internals of `groupcache/lru` are abstracted to a sequence of keys, most recent first. Values and eviction callbacks are left out.
- SegmentDownloader.CopyRate: elapsed time is integer nanoseconds, not float seconds. The rate is `bytes * 10^9 / nanos` rounded down, with no float rounding.
- SegmentDownloader.Downloader.Run: the wrap-around of the int64 `bytesTotal` is not modelled. Totals are unbounded naturals.
- `NewPlaylister`/`NewDownloader` wiring is not modelled. That includes the four-argument `NewDownloader` call at playlist_manager.go:65, which does not match downloader.go:17.
- `Watcher`/`New` in streaming.go:23-46 only wire the parts together, and are not modelled.
- `Status()`/`Done()` accessors are not modelled. In playlist_manager.go they return a channel or send on it.
- Some behaviour of the code is easy to misread. The model keeps it as written:
  - At playlist_manager.go:264, after a successful re-resolution, the poller decodes the body of the failed playlist response. A nil response therefore panics, and so does a body that is not a media playlist.
  - At playlist_manager.go:210-213, `retrycounter` is never incremented. The abort at line 213 therefore cannot be reached (`PollCycle`).
  - At playlister.go:158, streaming.go:116 and streaming.go:147, a transport error with no response is followed by a log line that reads `resp.Status` of a nil response. The model treats this as a panic, not a retry.
- streaming.go retries the master request only on non-200 replies (streaming.go:115-118). A transport error with no response panics on the log line. A nil response, a non-master body or a missing label panics after the loop (streaming.go:120-140). The model ends all of these with a `Panicked` exit.
