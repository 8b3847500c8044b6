/**
  One `/play` request as a state machine (index.js:53-153).  Every call into a
  library (the YouTube search, the directory check, youtube-dl, the member
  lookup, joining the voice channel, the player's events) is a step whose
  outcome the caller chooses; the state records what the bot has done so far:
  the replies it sent, the searches and downloads it asked for, whether the
  downloaded file exists and whether a voice session is open.

  The handler runs the steps in the order `Receive`, `Classify`, `Search`,
  `Download`, `CheckPresence`, `JoinAndPlay`, then `OnSignal` once for every
  Idle or error event the player emits.  A step applied in the wrong phase
  changes nothing, so `Handle` and `Run` can compose all of them.
*/
module Lifecycle {
  import opened YouTubeLink
  import opened DownloadPath

  /** The replies the bot sends, by the line of index.js that sends them. */
  datatype Reply =
    | PlayingUrl(url: string)      // index.js:61
    | FoundVideo(title: string)    // index.js:77
    | VideoNotFound                // index.js:80
    | SearchFailed                 // index.js:84
    | JoinVoiceChannelFirst        // index.js:147
    | DownloadFailed               // index.js:151

  /** The interaction as delivered by Discord. */
  datatype Interaction = Interaction(isCommand: bool, commandName: string, query: string)

  /** The number of hits asked of the search (index.js:67). */
  const MaxResults: nat := 1

  datatype SearchRequest = SearchRequest(query: string, maxResults: nat)
  datatype SearchItem = SearchItem(videoId: string, title: string)
  /** A fault is any rejection of the search call or of reading its response. */
  datatype SearchOutcome = SearchFault | SearchOk(items: seq<SearchItem>)

  datatype DownloadRequest = DownloadRequest(url: string, output: string)
  datatype DownloadOutcome = Downloaded | DownloadFault

  /** The member lookup of index.js:109 and the channel test of index.js:110-112. */
  datatype MemberOutcome = MemberFault | InVoiceChannel | NotInVoiceChannel

  /** Joining (index.js:113-117) and starting the player (index.js:119-123):
      `JoinFault` when joining throws, `PlayerFault` when setting up the player
      throws after the connection was made. */
  datatype VoiceOutcome = JoinFault | PlayerFault | Started

  /** The two player events with a handler that cleans up. */
  datatype Signal = Idle | PlayerError

  /** What the library calls answer, in the order the handler makes them. */
  datatype Environment = Environment(
    search: SearchOutcome,
    clock: nat,
    mkdirOk: bool,
    download: DownloadOutcome,
    member: MemberOutcome,
    voice: VoiceOutcome)

  datatype Phase =
    | Ignored
    | Received
    | Searching
    | Downloading(url: string)
    | CheckingPresence
    | Joining
    | Playing
    | Finished

  datatype State = State(
    query: string,
    phase: Phase,
    replies: seq<Reply>,
    searches: seq<SearchRequest>,
    downloads: seq<DownloadRequest>,
    output: string,
    dirExists: bool,
    fileExists: bool,
    sessionOpen: bool,
    joins: nat,
    destroys: nat,
    unlinks: nat)

  predicate IsPlay(i: Interaction) {
    i.isCommand && i.commandName == "play"
  }

  /** The handler starts; anything but the `play` command is ignored (index.js:54-56). */
  function Receive(i: Interaction, dirExists: bool): State {
    State(i.query, if IsPlay(i) then Received else Ignored, [], [], [], "", dirExists, false, false, 0, 0, 0)
  }

  /** A direct link is announced and goes to the download; anything else is searched for (index.js:58-63). */
  function Classify(st: State): State {
    if st.phase != Received then st
    else if IsDirectLink(st.query) then
      st.(phase := Downloading(st.query), replies := st.replies + [PlayingUrl(st.query)])
    else
      st.(phase := Searching)
  }

  /** One search for the query; the first hit's watch URL goes to the download (index.js:64-85). */
  function Search(st: State, outcome: SearchOutcome): State {
    if st.phase != Searching then st
    else
      var asked := st.(searches := st.searches + [SearchRequest(st.query, MaxResults)]);
      match outcome
      case SearchFault =>
        asked.(phase := Finished, replies := asked.replies + [SearchFailed])
      case SearchOk(items) =>
        if |items| > 0 then
          asked.(phase := Downloading(WatchUrl(items[0].videoId)),
                 replies := asked.replies + [FoundVideo(items[0].title)])
        else
          asked.(phase := Finished, replies := asked.replies + [VideoNotFound])
  }

  /** The catch of index.js:149-152: the request ends with the download-error reply. */
  function Fail(st: State): State {
    st.(phase := Finished, replies := st.replies + [DownloadFailed])
  }

  /** The output path is fixed, the directory made if missing, and youtube-dl
      writes the file (index.js:91-105). */
  function Download(st: State, clock: nat, mkdirOk: bool, outcome: DownloadOutcome): State {
    if !st.phase.Downloading? then st
    else
      var named := st.(output := OutputPath(clock));
      if !st.dirExists && !mkdirOk then Fail(named)
      else Fetch(named.(dirExists := true), outcome)
  }

  /** youtube-dl writes the URL being downloaded to the output path (index.js:99-105). */
  function Fetch(st: State, outcome: DownloadOutcome): State
    requires st.phase.Downloading?
  {
    var asked := st.(downloads := st.downloads + [DownloadRequest(st.phase.url, st.output)]);
    match outcome
    case DownloadFault => Fail(asked)
    case Downloaded => asked.(fileExists := true, phase := CheckingPresence)
  }

  /** The requester must be in a voice channel (index.js:109-112, 146-148); the file is kept either way. */
  function CheckPresence(st: State, outcome: MemberOutcome): State {
    if st.phase != CheckingPresence then st
    else
      match outcome
      case MemberFault => Fail(st)
      case NotInVoiceChannel => st.(phase := Finished, replies := st.replies + [JoinVoiceChannelFirst])
      case InVoiceChannel => st.(phase := Joining)
  }

  /** Join the channel and start playing the file (index.js:113-123). */
  function JoinAndPlay(st: State, outcome: VoiceOutcome): State {
    if st.phase != Joining then st
    else
      match outcome
      case JoinFault => Fail(st)
      case PlayerFault => Fail(st.(sessionOpen := true, joins := st.joins + 1))
      case Started => st.(sessionOpen := true, joins := st.joins + 1, phase := Playing)
  }

  /** The Idle and error handlers (index.js:125-141), which are the same: delete the
      file if it is still there, then destroy the connection. */
  function OnSignal(st: State, signal: Signal): State {
    if st.phase != Playing then st
    else
      var swept := if st.fileExists then st.(fileExists := false, unlinks := st.unlinks + 1) else st;
      swept.(sessionOpen := false, destroys := swept.destroys + 1)
  }

  /** The player's events, in the order they are emitted. */
  function AfterSignals(st: State, signals: seq<Signal>): State
    decreases |signals|
  {
    if signals == [] then st else AfterSignals(OnSignal(st, signals[0]), signals[1..])
  }

  /** The `interactionCreate` handler up to the call of `downloadAndPlay` (index.js:56-81). */
  function Route(st: State, search: SearchOutcome): State {
    Search(Classify(st), search)
  }

  /** `downloadAndPlay` up to the point where playback starts or the request ends (index.js:90-153). */
  function DownloadAndPlay(st: State, env: Environment): State {
    JoinAndPlay(CheckPresence(Download(st, env.clock, env.mkdirOk, env.download), env.member), env.voice)
  }

  /** The handler up to the point where playback starts or the request ends. */
  function Handle(st: State, env: Environment): State {
    DownloadAndPlay(Route(st, env.search), env)
  }

  /** A whole request: the handler, then the player's events. */
  function Run(i: Interaction, dirExists: bool, env: Environment, signals: seq<Signal>): State {
    AfterSignals(Handle(Receive(i, dirExists), env), signals)
  }

  /** The handler reaches the download: the query is a link, or the search found something. */
  predicate ReachesDownload(i: Interaction, env: Environment) {
    IsPlay(i) && (IsDirectLink(i.query) || (env.search.SearchOk? && |env.search.items| > 0))
  }

  /** The file is written: the download is reached, the directory is there and youtube-dl succeeds. */
  predicate ReachesPresenceCheck(i: Interaction, dirExists: bool, env: Environment) {
    ReachesDownload(i, env) && (dirExists || env.mkdirOk) && env.download == Downloaded
  }

  /** The reply the handler sends before downloading. */
  function FirstReply(i: Interaction, env: Environment): Reply
    requires ReachesDownload(i, env)
  {
    if IsDirectLink(i.query) then PlayingUrl(i.query) else FoundVideo(env.search.items[0].title)
  }

  /** The URL handed to youtube-dl. */
  function DownloadUrl(i: Interaction, env: Environment): string
    requires ReachesDownload(i, env)
  {
    if IsDirectLink(i.query) then i.query else WatchUrl(env.search.items[0].videoId)
  }

  /** Nothing on disk or on the voice side has happened yet. */
  predicate Untouched(st: State) {
    st.downloads == [] && !st.fileExists && !st.sessionOpen && st.joins == 0 && st.destroys == 0 && st.unlinks == 0
  }

  predicate BeforeReplies(p: Phase) {
    p == Ignored || p == Received || p == Searching
  }

  predicate BeforeJoin(p: Phase) {
    p == CheckingPresence || p == Joining
  }

  /** What holds in every state a request goes through. */
  predicate Valid(st: State) {
    && |st.searches| <= 1 && |st.downloads| <= 1 && |st.replies| <= 2
    && st.joins <= 1 && st.unlinks <= 1
    && (st.searches != [] ==> st.searches == [SearchRequest(st.query, MaxResults)] && !IsDirectLink(st.query))
    && (st.fileExists ==> |st.downloads| == 1)
    && (st.unlinks == 1 ==> !st.fileExists)
    && (st.sessionOpen ==> st.joins == 1)
    && (st.joins == 1 ==> |st.downloads| == 1)
    && (st.destroys > 0 || st.unlinks > 0 ==> st.phase == Playing)
    && (BeforeReplies(st.phase) ==> st.replies == [] && st.searches == [] && Untouched(st))
    && (st.phase == Searching ==> !IsDirectLink(st.query))
    && (st.phase.Downloading? ==> |st.replies| == 1 && Untouched(st))
    && (BeforeJoin(st.phase) ==> |st.replies| == 1 && st.fileExists && st.joins == 0)
    && (st.phase == Playing ==> |st.replies| == 1 && st.joins == 1)
    && (st.phase == Finished ==> |st.replies| >= 1)
  }

  /** The steps, for stating that each keeps `Valid`. */
  datatype Event =
    | Classified
    | Searched(search: SearchOutcome)
    | DownloadAttempted(clock: nat, mkdirOk: bool, download: DownloadOutcome)
    | PresenceChecked(member: MemberOutcome)
    | VoiceStarted(voice: VoiceOutcome)
    | Signalled(signal: Signal)

  function Step(st: State, e: Event): State {
    match e
    case Classified => Classify(st)
    case Searched(o) => Search(st, o)
    case DownloadAttempted(clock, mkdirOk, o) => Download(st, clock, mkdirOk, o)
    case PresenceChecked(o) => CheckPresence(st, o)
    case VoiceStarted(o) => JoinAndPlay(st, o)
    case Signalled(s) => OnSignal(st, s)
  }

  lemma ReceiveIsValid(i: Interaction, dirExists: bool)
    ensures Valid(Receive(i, dirExists)) && BeforeReplies(Receive(i, dirExists).phase)
  {
  }

  lemma ClassifyIsValid(st: State)
    requires Valid(st)
    ensures Valid(Classify(st))
  {
  }

  lemma SearchIsValid(st: State, o: SearchOutcome)
    requires Valid(st)
    ensures Valid(Search(st, o))
  {
  }

  lemma DownloadIsValid(st: State, clock: nat, mkdirOk: bool, o: DownloadOutcome)
    requires Valid(st)
    ensures Valid(Download(st, clock, mkdirOk, o))
  {
  }

  lemma FetchIsValid(st: State, o: DownloadOutcome)
    requires Valid(st) && st.phase.Downloading?
    ensures Valid(Fetch(st, o))
  {
  }

  lemma CheckPresenceIsValid(st: State, o: MemberOutcome)
    requires Valid(st)
    ensures Valid(CheckPresence(st, o))
  {
  }

  lemma JoinAndPlayIsValid(st: State, o: VoiceOutcome)
    requires Valid(st)
    ensures Valid(JoinAndPlay(st, o))
  {
  }

  /** The guard keeps the invariant: the file is never deleted twice. */
  lemma OnSignalIsValid(st: State, signal: Signal)
    requires Valid(st)
    ensures Valid(OnSignal(st, signal))
  {
  }

  /** Every step keeps the invariant: in particular the file is deleted at most once
      and a session is only opened after a download. */
  lemma StepPreservesValid(st: State, e: Event)
    requires Valid(st)
    ensures Valid(Step(st, e))
  {
    match e
    case Classified => ClassifyIsValid(st);
    case Searched(o) => SearchIsValid(st, o);
    case DownloadAttempted(clock, mkdirOk, o) => DownloadIsValid(st, clock, mkdirOk, o);
    case PresenceChecked(o) => CheckPresenceIsValid(st, o);
    case VoiceStarted(o) => JoinAndPlayIsValid(st, o);
    case Signalled(sg) => OnSignalIsValid(st, sg);
  }

  lemma {:induction false} SignalsPreserveValid(st: State, signals: seq<Signal>)
    requires Valid(st)
    ensures Valid(AfterSignals(st, signals))
    decreases |signals|
  {
    if signals != [] {
      OnSignalIsValid(st, signals[0]);
      SignalsPreserveValid(OnSignal(st, signals[0]), signals[1..]);
    }
  }

  lemma HandlePreservesValid(st: State, env: Environment)
    requires Valid(st)
    ensures Valid(Handle(st, env))
  {
    var s1 := Classify(st);
    ClassifyIsValid(st);
    var s2 := Search(s1, env.search);
    SearchIsValid(s1, env.search);
    var s3 := Download(s2, env.clock, env.mkdirOk, env.download);
    DownloadIsValid(s2, env.clock, env.mkdirOk, env.download);
    var s4 := CheckPresence(s3, env.member);
    CheckPresenceIsValid(s3, env.member);
    JoinAndPlayIsValid(s4, env.voice);
  }

  /** Every request, whatever the libraries answer, ends in a valid state. */
  lemma RunIsValid(i: Interaction, dirExists: bool, env: Environment, signals: seq<Signal>)
    ensures Valid(Run(i, dirExists, env, signals))
  {
    ReceiveIsValid(i, dirExists);
    HandlePreservesValid(Receive(i, dirExists), env);
    SignalsPreserveValid(Handle(Receive(i, dirExists), env), signals);
  }

  /** Events delivered while not playing change nothing. */
  lemma {:induction false} SignalsOutsidePlaying(st: State, signals: seq<Signal>)
    requires st.phase != Playing
    ensures AfterSignals(st, signals) == st
    decreases |signals|
  {
    if signals != [] {
      SignalsOutsidePlaying(OnSignal(st, signals[0]), signals[1..]);
    }
  }

  /** The cleanup is guarded: over any run of Idle and error events the file is
      deleted once if it was there and never otherwise, the connection is destroyed
      once per event, and after the first event neither the file nor the session is
      left; nothing else changes. */
  lemma {:induction false} CleanupIsGuarded(st: State, signals: seq<Signal>)
    requires st.phase == Playing
    ensures var r := AfterSignals(st, signals);
      && r.unlinks == st.unlinks + (if st.fileExists && signals != [] then 1 else 0)
      && r.destroys == st.destroys + |signals|
      && r.fileExists == (st.fileExists && signals == [])
      && r.sessionOpen == (st.sessionOpen && signals == [])
      && r == st.(unlinks := r.unlinks, destroys := r.destroys, fileExists := r.fileExists, sessionOpen := r.sessionOpen)
    decreases |signals|
  {
    if signals != [] {
      var next := OnSignal(st, signals[0]);
      CleanupIsGuarded(next, signals[1..]);
    }
  }

  /** Routing a `play` command that reaches the download. */
  lemma RouteToDownload(i: Interaction, dirExists: bool, env: Environment)
    requires ReachesDownload(i, env)
    ensures var st := Route(Receive(i, dirExists), env.search);
      && st.phase == Downloading(DownloadUrl(i, env)) && st.replies == [FirstReply(i, env)]
      && Untouched(st) && st.dirExists == dirExists
      && st.searches == (if IsDirectLink(i.query) then [] else [SearchRequest(i.query, MaxResults)])
  {
  }

  /** Routing a `play` command that does not reach the download. */
  lemma RouteWithoutDownload(i: Interaction, dirExists: bool, env: Environment)
    requires IsPlay(i) && !ReachesDownload(i, env)
    ensures var st := Route(Receive(i, dirExists), env.search);
      && st.phase == Finished && Untouched(st)
      && st.replies == [if env.search.SearchFault? then SearchFailed else VideoNotFound]
      && st.searches == [SearchRequest(i.query, MaxResults)]
  {
  }

  /** `downloadAndPlay` when the directory cannot be made or youtube-dl fails. */
  lemma DownloadStageFails(st: State, env: Environment)
    requires st.phase.Downloading? && Untouched(st)
    requires (!st.dirExists && !env.mkdirOk) || env.download == DownloadFault
    ensures var r := DownloadAndPlay(st, env);
      && r.phase == Finished && r.replies == st.replies + [DownloadFailed]
      && !r.fileExists && !r.sessionOpen && r.joins == 0
      && r.downloads == (if st.dirExists || env.mkdirOk
                          then [DownloadRequest(st.phase.url, OutputPath(env.clock))] else [])
  {
  }

  /** youtube-dl wrote the file: what `downloadAndPlay` has done before the member lookup. */
  lemma DownloadStageSucceeds(st: State, env: Environment)
    requires st.phase.Downloading? && Untouched(st)
    requires (st.dirExists || env.mkdirOk) && env.download == Downloaded
    ensures Download(st, env.clock, env.mkdirOk, env.download) ==
      st.(phase := CheckingPresence, output := OutputPath(env.clock), dirExists := true, fileExists := true,
          downloads := [DownloadRequest(st.phase.url, OutputPath(env.clock))])
  {
  }

  /** Outside the download and voice phases `downloadAndPlay` does nothing. */
  lemma DownloadAndPlayElsewhere(st: State, env: Environment)
    requires !st.phase.Downloading? && !BeforeJoin(st.phase)
    ensures DownloadAndPlay(st, env) == st
  {
  }

  /** Anything but the `play` command has no effect at all. */
  lemma OtherInteractionsIgnored(i: Interaction, dirExists: bool, env: Environment, signals: seq<Signal>)
    requires !IsPlay(i)
    ensures Run(i, dirExists, env, signals) == Receive(i, dirExists)
    ensures Run(i, dirExists, env, signals).replies == []
  {
    SignalsOutsidePlaying(Receive(i, dirExists), signals);
  }

  /** A direct link is announced, never searched for, and handed to youtube-dl unchanged. */
  lemma DirectLinkSkipsSearch(i: Interaction, dirExists: bool, env: Environment, signals: seq<Signal>)
    requires IsPlay(i) && IsDirectLink(i.query)
    ensures var r := Run(i, dirExists, env, signals);
      && r.searches == []
      && |r.replies| >= 1 && r.replies[0] == PlayingUrl(i.query)
      && r.downloads == (if dirExists || env.mkdirOk then [DownloadRequest(i.query, OutputPath(env.clock))] else [])
  {
    RouteToDownload(i, dirExists, env);
    DownloadAndPlayKeeps(Route(Receive(i, dirExists), env.search), env, signals);
  }

  /** Any other query is searched for exactly once, asking for one hit. */
  lemma QueryIsSearchedOnce(i: Interaction, dirExists: bool, env: Environment, signals: seq<Signal>)
    requires IsPlay(i) && !IsDirectLink(i.query)
    ensures Run(i, dirExists, env, signals).searches == [SearchRequest(i.query, 1)]
  {
    if ReachesDownload(i, env) {
      RouteToDownload(i, dirExists, env);
    } else {
      RouteWithoutDownload(i, dirExists, env);
    }
    DownloadAndPlayKeeps(Route(Receive(i, dirExists), env.search), env, signals);
  }

  /** On a hit, the reply names the first item and youtube-dl gets its watch URL. */
  lemma SearchHitDownloadsWatchUrl(i: Interaction, dirExists: bool, env: Environment, signals: seq<Signal>)
    requires IsPlay(i) && !IsDirectLink(i.query)
    requires env.search.SearchOk? && |env.search.items| > 0
    ensures var r := Run(i, dirExists, env, signals);
      var hit := env.search.items[0];
      && |r.replies| >= 1 && r.replies[0] == FoundVideo(hit.title)
      && r.downloads == (if dirExists || env.mkdirOk
                          then [DownloadRequest("https://www.youtube.com/watch?v=" + hit.videoId, OutputPath(env.clock))]
                          else [])
  {
    RouteToDownload(i, dirExists, env);
    DownloadAndPlayKeeps(Route(Receive(i, dirExists), env.search), env, signals);
  }

  /** No hit: the not-found reply, and nothing downloaded or joined. */
  lemma NoHitEndsRequest(i: Interaction, dirExists: bool, env: Environment, signals: seq<Signal>)
    requires IsPlay(i) && !IsDirectLink(i.query) && env.search == SearchOk([])
    ensures var r := Run(i, dirExists, env, signals);
      r.replies == [VideoNotFound] && r.downloads == [] && r.joins == 0 && !r.fileExists && !r.sessionOpen
  {
    RouteWithoutDownload(i, dirExists, env);
    SignalsOutsidePlaying(Handle(Receive(i, dirExists), env), signals);
  }

  /** A failed search: the search-error reply, and nothing downloaded or joined. */
  lemma SearchFaultEndsRequest(i: Interaction, dirExists: bool, env: Environment, signals: seq<Signal>)
    requires IsPlay(i) && !IsDirectLink(i.query) && env.search == SearchFault
    ensures var r := Run(i, dirExists, env, signals);
      r.replies == [SearchFailed] && r.downloads == [] && r.joins == 0 && !r.fileExists && !r.sessionOpen
  {
    RouteWithoutDownload(i, dirExists, env);
    SignalsOutsidePlaying(Handle(Receive(i, dirExists), env), signals);
  }

  /** A failed download, or a directory that cannot be made: the download-error reply
      after the first one, no file, no voice session. */
  lemma DownloadFaultEndsRequest(i: Interaction, dirExists: bool, env: Environment, signals: seq<Signal>)
    requires ReachesDownload(i, env)
    requires (!dirExists && !env.mkdirOk) || env.download == DownloadFault
    ensures var r := Run(i, dirExists, env, signals);
      r.replies == [FirstReply(i, env), DownloadFailed] && r.joins == 0 && !r.fileExists && !r.sessionOpen
  {
    var st := Route(Receive(i, dirExists), env.search);
    RouteToDownload(i, dirExists, env);
    DownloadStageFails(st, env);
    SignalsOutsidePlaying(DownloadAndPlay(st, env), signals);
  }

  /** A failed member lookup: the download-error reply and no voice session, and the
      downloaded file is left behind. */
  lemma MemberFaultEndsRequest(i: Interaction, dirExists: bool, env: Environment, signals: seq<Signal>)
    requires ReachesPresenceCheck(i, dirExists, env) && env.member == MemberFault
    ensures var r := Run(i, dirExists, env, signals);
      r.replies == [FirstReply(i, env), DownloadFailed] && r.joins == 0 && !r.sessionOpen
      && r.fileExists && r.unlinks == 0
  {
    var st := Route(Receive(i, dirExists), env.search);
    RouteToDownload(i, dirExists, env);
    DownloadStageSucceeds(st, env);
    SignalsOutsidePlaying(DownloadAndPlay(st, env), signals);
  }

  /** A failed join: the download-error reply, no voice session, and the downloaded
      file is left behind. */
  lemma JoinFaultEndsRequest(i: Interaction, dirExists: bool, env: Environment, signals: seq<Signal>)
    requires ReachesPresenceCheck(i, dirExists, env) && env.member == InVoiceChannel && env.voice == JoinFault
    ensures var r := Run(i, dirExists, env, signals);
      r.replies == [FirstReply(i, env), DownloadFailed] && r.joins == 0 && !r.sessionOpen
      && r.fileExists && r.unlinks == 0 && r.destroys == 0
  {
    var st := Route(Receive(i, dirExists), env.search);
    RouteToDownload(i, dirExists, env);
    DownloadStageSucceeds(st, env);
    SignalsOutsidePlaying(DownloadAndPlay(st, env), signals);
  }

  /** A requester outside any voice channel: the join-a-channel reply, no voice
      session, and the downloaded file is not deleted. */
  lemma AbsentRequesterKeepsFile(i: Interaction, dirExists: bool, env: Environment, signals: seq<Signal>)
    requires ReachesPresenceCheck(i, dirExists, env) && env.member == NotInVoiceChannel
    ensures var r := Run(i, dirExists, env, signals);
      r.replies == [FirstReply(i, env), JoinVoiceChannelFirst] && r.joins == 0 && !r.sessionOpen
      && r.fileExists && r.unlinks == 0
      && r.downloads == [DownloadRequest(DownloadUrl(i, env), OutputPath(env.clock))]
  {
    var st := Route(Receive(i, dirExists), env.search);
    RouteToDownload(i, dirExists, env);
    DownloadStageSucceeds(st, env);
    SignalsOutsidePlaying(DownloadAndPlay(st, env), signals);
  }

  /** Playback: one session is opened; until the first event the file and the session
      stay, and after it both are gone, the file deleted once and the connection
      destroyed once per event. */
  lemma PlaybackCleansUp(i: Interaction, dirExists: bool, env: Environment, signals: seq<Signal>)
    requires ReachesPresenceCheck(i, dirExists, env) && env.member == InVoiceChannel && env.voice == Started
    ensures var r := Run(i, dirExists, env, signals);
      && r.replies == [FirstReply(i, env)] && r.joins == 1
      && r.downloads == [DownloadRequest(DownloadUrl(i, env), OutputPath(env.clock))]
      && r.destroys == |signals|
      && r.unlinks == (if signals == [] then 0 else 1)
      && r.fileExists == (signals == [])
      && r.sessionOpen == (signals == [])
  {
    var st := Route(Receive(i, dirExists), env.search);
    RouteToDownload(i, dirExists, env);
    DownloadStageSucceeds(st, env);
    CleanupIsGuarded(DownloadAndPlay(st, env), signals);
  }

  /** A player that cannot be set up after joining: the download-error reply, and both
      the connection and the file are left behind, since no handler was installed. */
  lemma PlayerFaultLeavesSession(i: Interaction, dirExists: bool, env: Environment, signals: seq<Signal>)
    requires ReachesPresenceCheck(i, dirExists, env) && env.member == InVoiceChannel && env.voice == PlayerFault
    ensures var r := Run(i, dirExists, env, signals);
      r.replies == [FirstReply(i, env), DownloadFailed] && r.joins == 1 && r.sessionOpen
      && r.fileExists && r.destroys == 0
  {
    var st := Route(Receive(i, dirExists), env.search);
    RouteToDownload(i, dirExists, env);
    DownloadStageSucceeds(st, env);
    SignalsOutsidePlaying(DownloadAndPlay(st, env), signals);
  }

  /** `downloadAndPlay` and the events after it keep the searches, the first reply
      and the download request, and send at most one more reply. */
  lemma DownloadAndPlayKeeps(st: State, env: Environment, signals: seq<Signal>)
    requires st.phase.Downloading? ==> Untouched(st)
    ensures var r := AfterSignals(DownloadAndPlay(st, env), signals);
      && r.searches == st.searches
      && st.replies <= r.replies && |r.replies| <= |st.replies| + 1
      && (st.phase.Downloading? ==>
            r.downloads == (if st.dirExists || env.mkdirOk
                            then [DownloadRequest(st.phase.url, OutputPath(env.clock))] else []))
  {
    DownloadAndPlayRecords(st, env);
    SignalsKeepRecords(DownloadAndPlay(st, env), signals);
  }

  /** What `downloadAndPlay` adds to the replies, searches and downloads. */
  lemma DownloadAndPlayRecords(st: State, env: Environment)
    requires st.phase.Downloading? ==> Untouched(st)
    ensures var r := DownloadAndPlay(st, env);
      && r.searches == st.searches
      && st.replies <= r.replies && |r.replies| <= |st.replies| + 1
      && (st.phase.Downloading? ==>
            r.downloads == (if st.dirExists || env.mkdirOk
                            then [DownloadRequest(st.phase.url, OutputPath(env.clock))] else []))
  {
    var d := Download(st, env.clock, env.mkdirOk, env.download);
    if st.phase.Downloading? {
      if (!st.dirExists && !env.mkdirOk) || env.download == DownloadFault {
        DownloadStageFails(st, env);
      } else {
        DownloadStageSucceeds(st, env);
        VoiceStageRecords(d, env);
      }
    } else {
      assert d == st;
      VoiceStageRecords(d, env);
    }
  }

  /** The member lookup and the join add at most one reply and touch neither the
      searches nor the downloads. */
  lemma VoiceStageRecords(st: State, env: Environment)
    ensures var r := JoinAndPlay(CheckPresence(st, env.member), env.voice);
      && r.searches == st.searches && r.downloads == st.downloads
      && st.replies <= r.replies && |r.replies| <= |st.replies| + 1
  {
    var c := CheckPresence(st, env.member);
    CheckPresenceRecords(st, env.member);
    JoinAndPlayRecords(c, env.voice);
  }

  lemma CheckPresenceRecords(st: State, o: MemberOutcome)
    ensures var r := CheckPresence(st, o);
      && r.searches == st.searches && r.downloads == st.downloads
      && (r.replies == st.replies || (r.phase == Finished && exists x :: r.replies == st.replies + [x]))
  {
  }

  lemma JoinAndPlayRecords(st: State, o: VoiceOutcome)
    ensures var r := JoinAndPlay(st, o);
      && r.searches == st.searches && r.downloads == st.downloads
      && (r.replies == st.replies || (st.phase == Joining && exists x :: r.replies == st.replies + [x]))
  {
  }

  /** The player's events touch only the file, the session and the two counters. */
  lemma SignalsKeepRecords(st: State, signals: seq<Signal>)
    ensures var r := AfterSignals(st, signals);
      r.replies == st.replies && r.searches == st.searches && r.downloads == st.downloads
      && r.phase == st.phase && r.joins == st.joins
  {
    if st.phase == Playing {
      CleanupIsGuarded(st, signals);
    } else {
      SignalsOutsidePlaying(st, signals);
    }
  }

  /** Every `play` request sends one or two replies, and two only when the first
      announced a link or a hit. */
  lemma RepliesPerRequest(i: Interaction, dirExists: bool, env: Environment, signals: seq<Signal>)
    requires IsPlay(i)
    ensures var r := Run(i, dirExists, env, signals);
      && 1 <= |r.replies| <= 2
      && (|r.replies| == 2 ==> ReachesDownload(i, env) && r.replies[0] == FirstReply(i, env))
  {
    var st := Route(Receive(i, dirExists), env.search);
    if ReachesDownload(i, env) {
      RouteToDownload(i, dirExists, env);
      DownloadAndPlayKeeps(st, env, signals);
    } else {
      RouteWithoutDownload(i, dirExists, env);
      SignalsOutsidePlaying(DownloadAndPlay(st, env), signals);
    }
  }
}
