# music-bot-discord `/play` request, modelled in Dafny

The bot answers one slash command, `/play query`. If the query is a YouTube link it
downloads that link; otherwise it asks the YouTube Data API for the best match and
downloads that video's watch URL. In both cases `youtube-dl` writes an mp3 into a
`downloads` directory. The bot then joins the requester's voice channel and plays
the file. When the player reports Idle or an error, the file is deleted and the
voice connection destroyed.

The project has four modules, one per file:

- `link.dfy`, module `YouTubeLink`: the direct-link test of `index.js:58`, the regular
  expression `^(https?:\/\/)?(www\.)?(youtube\.com|youtu\.?be)\/.+$`. `IsDirectLink` is a
  matcher: it tries every alternative of each group in turn and keeps what remains of
  the string. `Decomposes` is a declarative reference: the string is
  scheme + www-prefix + host + `/` + rest, where rest is non-empty and holds no
  JavaScript line terminator (`\n`, `\r`, U+2028, U+2029; the pattern has no flags, so
  `.` matches anything else). The two are proved equivalent. The split is proved
  unique, and the quirks of the pattern are pinned down. `WatchUrl` builds the link
  of `index.js:76`.
- `paths.dfy`, module `DownloadPath`: the output file `downloads/song-<t>.mp3` of
  `index.js:91`, with `<t>` the millisecond clock in decimal.
- `lifecycle.dfy`, module `Lifecycle`: one request as a pure state machine. Each call
  into a library becomes a step whose outcome the caller chooses. The state keeps the
  replies sent, the searches and downloads requested, whether the directory and the
  file exist, whether a voice session is open, and counts of joins, destroys and
  unlinks. The lemmas state which external effects each path reaches.
- `request.dfy`, module `Bot`: the handler and `downloadAndPlay` as the source writes
  them, a class `Request` whose methods update its fields in place. Each method is
  proved to produce the state that `Lifecycle` gives.

Cleanup and replies do not always behave as one might expect of such a bot. The model
follows the code:

- When the requester is in no voice channel, the downloaded file is **not** deleted
  (`index.js:146-148`). See `Lifecycle.AbsentRequesterKeepsFile`.
- A failed member lookup leaves the file behind. A player that cannot be set up after
  the join leaves both the file and the connection behind. Cleanup is not
  unconditional. See `Lifecycle.MemberFaultEndsRequest` and
  `Lifecycle.PlayerFaultLeavesSession`.
- The Idle and error handlers are registered with `on`, not as one-shot handlers.
  Every event runs the cleanup again: the existence check keeps the file from being
  deleted twice, but `connection.destroy()` is called once per event. See
  `Lifecycle.CleanupIsGuarded`.
- A request does not always send one acknowledgment plus one terminal message. A
  failed or empty search sends a single reply. A successful playback sends only the
  announcement. A failure after the announcement calls `interaction.reply` a second time. See
  `Lifecycle.RepliesPerRequest`.
- File names come from a millisecond clock, so two requests in the same millisecond
  get the same file. See `DownloadPath.OutputPathCollision`.

## Model

| member | source | states |
|---|---|---|
| `YouTubeLink.IsDirectLink` | index.js:58 | the regular expression as a matcher; its meaning is stated by `DirectLinkIffDecomposes`, `MatchedParts`, `DecompositionMatches` and the lemmas below |
| `YouTubeLink.DirectLinkIffDecomposes` | index.js:58 | the matcher accepts a string exactly when it is an optional `http://`/`https://`, an optional `www.`, one of `youtube.com`, `youtu.be`, `youtube`, a slash and a non-empty rest free of line terminators |
| `YouTubeLink.MatchedParts` | index.js:58 | every accepted string yields such a decomposition |
| `YouTubeLink.DecompositionMatches` | index.js:58 | every such decomposition is accepted |
| `YouTubeLink.SplitIsUnique` | index.js:58 | a string splits into scheme, www-prefix, host and rest in at most one way |
| `YouTubeLink.DirectLinkForm` | index.js:58 | scheme + www-prefix + host + `/` + x is a direct link if and only if x is non-empty and has no line terminator |
| `YouTubeLink.PathIsRequired` | index.js:58 | a string ending right after the slash, such as `youtube.com/`, is not a direct link |
| `YouTubeLink.DirectLinkFirstCharacter` | index.js:58 | every direct link starts with `h`, `w` or `y`, so a string with a leading blank is refused |
| `YouTubeLink.OtherSchemeIsNotDirectLink` | index.js:58 | a slash-free scheme other than `http` and `https` before `://`, such as `ws` or `HTTPS`, is refused |
| `YouTubeLink.WebSocketLinkExample` | index.js:58 | `ws://youtube.com/x` is not a direct link |
| `YouTubeLink.SubdomainIsNotDirectLink` | index.js:58 | any slash-free sub-domain other than `www` before the host, with one label or several, as in `m.youtube.com/x` or `www.m.youtube.com/x`, is refused |
| `YouTubeLink.TextBeforeSchemeIsNotDirectLink` | index.js:58 | non-empty slash-free text before an explicit scheme is refused |
| `YouTubeLink.TextBeforeHostIsNotDirectLink` | index.js:58 | non-empty slash-free text before a link without a scheme is refused, unless it is the `www.` prefix itself |
| `YouTubeLink.TextBeforeHostExamples` | index.js:58 | `hello youtube.com/x`, `watch youtu.be/x` and `https:youtube.com/x` are not direct links |
| `YouTubeLink.WatchUrl` | index.js:76 | the watch URL of a video id; `WatchUrlIsDirectLink` states when it passes the link test, `SearchHitDownloadsWatchUrl` that it is what youtube-dl receives |
| `YouTubeLink.WatchUrlIsDirectLink` | index.js:76 | the watch URL built from a video id passes the link test exactly when the id has no line terminator |
| `YouTubeLink.WatchLinkExample` | index.js:58 | `https://www.youtube.com/watch?v=abc123` is a direct link |
| `YouTubeLink.BareYoutubeExample` | index.js:58 | because the dot in `youtu\.?be` is optional, `youtube/x` is a direct link |
| `YouTubeLink.MobileLinkExample` | index.js:58 | `m.youtube.com/watch` is not a direct link |
| `YouTubeLink.NestedSubdomainExample` | index.js:58 | `www.m.youtube.com/x` is not a direct link |
| `DownloadPath.OutputPath` | index.js:91 | the output path of a clock reading; its shape is stated by `OutputPathShape` and its injectivity by `OutputPathCollision` |
| `DownloadPath.DecimalString` | index.js:91 | the `${Date.now()}` rendering; its own contract gives at least one digit, all digits and no leading zero, and `DecimalRoundTrip` and `DecimalStringInjective` state that it reads back to the value and is one-to-one |
| `DownloadPath.DecimalRoundTrip` | index.js:91 | reading the decimal rendering of the clock value gives the value back |
| `DownloadPath.DecimalStringInjective` | index.js:91 | two clock values render the same exactly when they are equal |
| `DownloadPath.OutputPathShape` | index.js:91 | the output path is `downloads/song-`, at least one digit reading back as the clock value, then `.mp3` |
| `DownloadPath.OutputPathCollision` | index.js:91 | two requests share an output path exactly when they read the same millisecond |
| `Lifecycle.Receive` | index.js:53-57 | the state a new interaction starts in; `ReceiveIsValid` states that it satisfies the invariant, before any reply, and `OtherInteractionsIgnored` that nothing else happens for anything but `play` |
| `Lifecycle.Classify` | index.js:58-63 | the link test's branch; `DirectLinkSkipsSearch` and `QueryIsSearchedOnce` state its two outcomes, `ClassifyIsValid` that it keeps the invariant |
| `Lifecycle.Search` | index.js:64-85 | the search branch; `QueryIsSearchedOnce`, `SearchHitDownloadsWatchUrl`, `NoHitEndsRequest` and `SearchFaultEndsRequest` state its outcomes, `SearchIsValid` that it keeps the invariant |
| `Lifecycle.Download` | index.js:91-105 | naming the file, making the directory and running youtube-dl; `DownloadFaultEndsRequest` and `DirectLinkSkipsSearch` state its outcomes, `DownloadIsValid` that it keeps the invariant |
| `Lifecycle.Fetch` | index.js:99-105 | the youtube-dl call; `DownloadFaultEndsRequest` states its fault outcome, `FetchIsValid` that it keeps the invariant |
| `Lifecycle.CheckPresence` | index.js:109-148 | the member lookup and the voice-channel test (lines 109-112 and 146-148); `MemberFaultEndsRequest`, `AbsentRequesterKeepsFile` and `CheckPresenceRecords` state its outcomes, `CheckPresenceIsValid` that it keeps the invariant |
| `Lifecycle.JoinAndPlay` | index.js:113-123 | joining and starting the player; `PlaybackCleansUp`, `PlayerFaultLeavesSession`, `JoinFaultEndsRequest` and `JoinAndPlayRecords` state its outcomes, `JoinAndPlayIsValid` that it keeps the invariant |
| `Lifecycle.OnSignal` | index.js:125-141 | one Idle or error event; `OnSignalIsValid` and `CleanupIsGuarded` state what it deletes and destroys |
| `Lifecycle.Fail` | index.js:149-152 | the catch; the fault lemmas (`DownloadFaultEndsRequest`, `MemberFaultEndsRequest`, `PlayerFaultLeavesSession`) state the single download-error reply it adds and that the request ends |
| `Lifecycle.AfterSignals` | index.js:125-141 | the Idle/error events in order; `CleanupIsGuarded` states the unlinks, destroys and flags after any sequence, `SignalsOutsidePlaying` that events before playback change nothing, `SignalsPreserveValid` that the invariant is kept |
| `Lifecycle.Route` | index.js:56-81 | the handler up to the call of `downloadAndPlay`; `RouteToDownload` and `RouteWithoutDownload` state when it reaches the download, with which reply and URL, and when it ends the request |
| `Lifecycle.DownloadAndPlay` | index.js:90-153 | `downloadAndPlay` up to the start of playback; `DownloadStageFails`, `DownloadStageSucceeds`, `DownloadAndPlayRecords` and `DownloadAndPlayKeeps` state its outcomes, `DownloadAndPlayElsewhere` that it does nothing outside its phases |
| `Lifecycle.Handle` | index.js:53-153 | the handler up to the start of playback; `HandlePreservesValid` states that it keeps the invariant |
| `Lifecycle.Run` | index.js:53-153 | the whole request, handler then events; `RunIsValid` and the path lemmas below (`OtherInteractionsIgnored` to `PlayerFaultLeavesSession`, `JoinFaultEndsRequest`, `RepliesPerRequest`) state its outcomes |
| `Lifecycle.StepPreservesValid` | index.js:53-153 | every step keeps the invariant: at most one search, download, join and unlink; an unlinked file is gone; a session is opened only after a download; at most two replies |
| `Lifecycle.OnSignalIsValid` | index.js:125-141 | thanks to the existence check, a cleanup handler never deletes the file a second time |
| `Lifecycle.RunIsValid` | index.js:53-153 | every request ends in a state satisfying the invariant, whatever the libraries answer and however many events fire |
| `Lifecycle.CleanupIsGuarded` | index.js:125-141 | over any sequence of Idle/error events: the file is deleted once if it existed and never otherwise; `connection.destroy()` is called once per event; after the first event neither file nor session remains; nothing else changes |
| `Lifecycle.OtherInteractionsIgnored` | index.js:54-56 | a non-command or a command other than `play` has no effect |
| `Lifecycle.DirectLinkSkipsSearch` | index.js:60-62 | a direct link is announced, never searched for, and passed unchanged to youtube-dl with the output path of the clock reading |
| `Lifecycle.QueryIsSearchedOnce` | index.js:64-71 | any other query is searched for exactly once, with `maxResults` 1 |
| `Lifecycle.SearchHitDownloadsWatchUrl` | index.js:73-78 | on a non-empty result the reply names the first item's title and youtube-dl receives exactly `https://www.youtube.com/watch?v=` + its video id |
| `Lifecycle.NoHitEndsRequest` | index.js:79-81 | zero results give only the not-found reply, with no download, no file and no session |
| `Lifecycle.SearchFaultEndsRequest` | index.js:82-85 | a search fault gives only the search-error reply, with no download, no file and no session |
| `Lifecycle.DownloadFaultEndsRequest` | index.js:94-105 | a directory that cannot be created, or a youtube-dl fault, gives the announcement then the download-error reply, with no file and no voice session |
| `Lifecycle.MemberFaultEndsRequest` | index.js:109 | a member-lookup fault gives the download-error reply and no voice session; the downloaded file stays |
| `Lifecycle.AbsentRequesterKeepsFile` | index.js:146-148 | a requester in no voice channel gets the join-a-channel reply; no session is created and the downloaded file is not deleted |
| `Lifecycle.PlaybackCleansUp` | index.js:113-141 | on playback exactly one session is opened; file and session stay until the first event and are gone after it; the file is deleted once and `connection.destroy()` is called once per event |
| `Lifecycle.JoinFaultEndsRequest` | index.js:113-152 | a failed join gives the download-error reply after the first one, with no join, no session and no destroy; the downloaded file stays |
| `Lifecycle.PlayerFaultLeavesSession` | index.js:119-123 | if the player cannot be set up after joining, the download-error reply is sent and both the connection and the file stay |
| `Lifecycle.RepliesPerRequest` | index.js:60-151 | a `play` request sends one or two replies; two only when the first announced a link or a hit |
| `Lifecycle.SignalsOutsidePlaying` | index.js:125-141 | events before playback starts change nothing, since no handler is installed yet |
| `Bot.Request.constructor` | index.js:53-57 | a new request holds the query, has sent nothing and has no file and no session |
| `Bot.Request.HandleInteraction` | index.js:53-88 | the handler leaves the object in the state-machine state `Handle` gives and keeps the invariant |
| `Bot.Request.SearchAndPlay` | index.js:64-85 | the search branch records one search and then replies, or downloads the first hit's watch URL, keeping the invariant |
| `Bot.Request.DownloadAndPlay` | index.js:90-153 | `downloadAndPlay` produces the state the state machine gives for the download, the presence check and the join, and keeps the invariant |
| `Bot.Request.Download` | index.js:91-105 | names the file and creates the directory if missing, ending the request if that fails, then runs youtube-dl; produces the state `Lifecycle.Download` gives and keeps the invariant |
| `Bot.Request.Fetch` | index.js:99-105 | records the youtube-dl request and marks the file as present only on success, keeping the invariant |
| `Bot.Request.CheckPresence` | index.js:109-148 | a lookup fault or an absent requester ends the request with the matching reply; otherwise the request goes on to join; the invariant is kept |
| `Bot.Request.JoinAndPlay` | index.js:113-123 | a join fault ends the request with no session; otherwise a session is opened, and a setup fault ends the request with that session still open; the invariant is kept |
| `Bot.Request.OnSignal` | index.js:125-141 | the Idle/error handler deletes the file only if it exists, then calls `connection.destroy()`; afterwards no file and no session remain, and at most one unlink has ever happened |
| `Bot.Request.Fail` | index.js:149-152 | the catch appends the download-error reply and ends the request |

## Left out

- The Discord client, its intents and login (`index.js:17-22`, `index.js:156`): network I/O.
- Registering the slash command through the REST API (`index.js:26-51`): a remote call with nothing to check locally.
- The YouTube search, youtube-dl and the voice library are not implemented. Each call is an outcome chosen by the caller (`Environment`, `Signal`). The constant request fields `part: 'snippet'` and `type: 'video'`, and youtube-dl's audio, format and playlist options, are not recorded. Only the query, `maxResults`, the URL and the output path are.
- `existsSync`, `mkdirSync` and `unlinkSync` act on two flags, one for the directory and one for the file. `unlinkSync` is taken to succeed, so a throw that would skip `connection.destroy()` is not modelled. `path.resolve` is not modelled, so paths are relative to the bot's directory.
- A failed youtube-dl run is modelled as leaving no file. Partial files are not modelled.
- `Date.now()` is the `clock` parameter.
- `DownloadPath.DecimalString` gives the plain decimal digits only. JavaScript switches to exponent notation from 10^21 on, far beyond any millisecond clock reading.
- Requests handled concurrently, and the scheduling of awaits and events, are not modelled. One request runs sequentially. Two requests sharing a file name is stated as a possibility (`DownloadPath.OutputPathCollision`), not played out.
- A rejected `interaction.reply` is not modelled: every reply is taken as sent. That includes the second reply after the first, whose outcome depends on the Discord library. The Russian reply texts are replaced by the tags of `Lifecycle.Reply`.
- Console logging, and the Disconnected handler (`index.js:143-145`), which only logs.
- What the voice library does when a destroyed connection is destroyed again is not modelled. The model only counts the calls.
- A search item is taken to have a string video id and title. The text a missing field would give (`undefined`) is not modelled.
- Dafny characters are Unicode scalar values, while JavaScript's `.` looks at UTF-16 code units. Lone surrogates therefore cannot be written here. For every other string the match result is the same.
