/**
  The handler and `downloadAndPlay` as the source writes them: one `Request`
  object per `/play` interaction whose fields the steps update in place, in the
  order and under the branches of index.js:53-153.  Every method is proved to
  leave the object in the state the `Lifecycle` state machine gives, so the
  lemmas proved there hold of the object too.
*/
module Bot {
  import opened YouTubeLink
  import opened DownloadPath
  import opened Lifecycle

  class Request {
    var query: string
    var phase: Phase
    var replies: seq<Reply>
    var searches: seq<SearchRequest>
    var downloads: seq<DownloadRequest>
    var output: string
    var dirExists: bool
    var fileExists: bool
    var sessionOpen: bool
    var joins: nat
    var destroys: nat
    var unlinks: nat

    /** The fields as a state of the state machine. */
    function Snapshot(): State
      reads this
    {
      State(query, phase, replies, searches, downloads, output, dirExists, fileExists,
            sessionOpen, joins, destroys, unlinks)
    }

    ghost predicate Valid()
      reads this
    {
      Lifecycle.Valid(Snapshot())
    }

    /** An interaction arrives; `dirExistsNow` says whether the downloads directory is there. */
    constructor (i: Interaction, dirExistsNow: bool)
      ensures Snapshot() == Receive(i, dirExistsNow)
      ensures Valid()
    {
      query := i.query;
      phase := if IsPlay(i) then Received else Ignored;
      replies := [];
      searches := [];
      downloads := [];
      output := "";
      dirExists := dirExistsNow;
      fileExists := false;
      sessionOpen := false;
      joins := 0;
      destroys := 0;
      unlinks := 0;
      ReceiveIsValid(i, dirExistsNow);
    }

    /** The catch of index.js:149-152. */
    method Fail()
      modifies this
      ensures Snapshot() == Lifecycle.Fail(old(Snapshot()))
    {
      replies := replies + [DownloadFailed];
      phase := Finished;
    }

    /** The `interactionCreate` handler (index.js:53-88), with the library calls
        answered by `env`. */
    method HandleInteraction(env: Environment)
      requires Valid() && BeforeReplies(phase) && phase != Searching
      modifies this
      ensures Snapshot() == Handle(old(Snapshot()), env)
      ensures Valid()
    {
      ghost var start := Snapshot();
      HandlePreservesValid(start, env);
      ClassifyIsValid(start);
      SearchIsValid(Classify(start), env.search);
      if phase != Received {
        DownloadAndPlayElsewhere(Route(start, env.search), env);
        return;
      }
      if IsDirectLink(query) {
        replies := replies + [PlayingUrl(query)];
        phase := Downloading(query);
        assert Snapshot() == Route(start, env.search);
        DownloadAndPlay(query, env);
      } else {
        SearchAndPlay(env);
      }
    }

    /** The search branch of the handler (index.js:64-85). */
    method SearchAndPlay(env: Environment)
      requires Valid() && phase == Received && !IsDirectLink(query)
      modifies this
      ensures Snapshot() == Handle(old(Snapshot()), env)
      ensures Valid()
    {
      ghost var start := Snapshot();
      ClassifyIsValid(start);
      SearchIsValid(Classify(start), env.search);
      searches := searches + [SearchRequest(query, MaxResults)];
      match env.search
      case SearchFault =>
        replies := replies + [SearchFailed];
        phase := Finished;
        assert Snapshot() == Route(start, env.search);
        DownloadAndPlayElsewhere(Snapshot(), env);
      case SearchOk(items) =>
        if |items| > 0 {
          var video := items[0];
          var videoUrl := WatchUrl(video.videoId);
          replies := replies + [FoundVideo(video.title)];
          phase := Downloading(videoUrl);
          assert Snapshot() == Route(start, env.search);
          DownloadAndPlay(videoUrl, env);
        } else {
          replies := replies + [VideoNotFound];
          phase := Finished;
          assert Snapshot() == Route(start, env.search);
          DownloadAndPlayElsewhere(Snapshot(), env);
        }
    }

    /** `downloadAndPlay(url, interaction)` (index.js:90-153) up to the start of playback. */
    method DownloadAndPlay(url: string, env: Environment)
      requires Valid() && phase == Downloading(url)
      modifies this
      ensures Snapshot() == Lifecycle.DownloadAndPlay(old(Snapshot()), env)
      ensures Valid()
    {
      Download(url, env.clock, env.mkdirOk, env.download);
      if phase == CheckingPresence {
        CheckPresence(env.member);
        if phase == Joining {
          JoinAndPlay(env.voice);
        }
      }
    }

    /** Name the file, make the directory if missing and run youtube-dl (index.js:91-105). */
    method Download(url: string, clock: nat, mkdirOk: bool, outcome: DownloadOutcome)
      requires Valid() && phase == Downloading(url)
      modifies this
      ensures Snapshot() == Lifecycle.Download(old(Snapshot()), clock, mkdirOk, outcome)
      ensures Valid()
    {
      DownloadIsValid(Snapshot(), clock, mkdirOk, outcome);
      output := OutputPath(clock);
      if !dirExists {
        if !mkdirOk {
          Fail();
          return;
        }
        dirExists := true;
      }
      Fetch(url, outcome);
    }

    /** Run youtube-dl on `url`, writing to the output path (index.js:99-105). */
    method Fetch(url: string, outcome: DownloadOutcome)
      requires Valid() && phase == Downloading(url)
      modifies this
      ensures Snapshot() == Lifecycle.Fetch(old(Snapshot()), outcome)
      ensures Valid()
    {
      FetchIsValid(Snapshot(), outcome);
      downloads := downloads + [DownloadRequest(url, output)];
      if outcome == DownloadFault {
        Fail();
        return;
      }
      fileExists := true;
      phase := CheckingPresence;
    }

    /** Look the requester up and test for a voice channel (index.js:109-112, 146-148). */
    method CheckPresence(outcome: MemberOutcome)
      requires Valid() && phase == CheckingPresence
      modifies this
      ensures Snapshot() == Lifecycle.CheckPresence(old(Snapshot()), outcome)
      ensures Valid()
    {
      CheckPresenceIsValid(Snapshot(), outcome);
      match outcome
      case MemberFault =>
        Fail();
      case NotInVoiceChannel =>
        replies := replies + [JoinVoiceChannelFirst];
        phase := Finished;
      case InVoiceChannel =>
        phase := Joining;
    }

    /** Join the channel, then set up the player and play the file (index.js:113-123). */
    method JoinAndPlay(outcome: VoiceOutcome)
      requires Valid() && phase == Joining
      modifies this
      ensures Snapshot() == Lifecycle.JoinAndPlay(old(Snapshot()), outcome)
      ensures Valid()
    {
      JoinAndPlayIsValid(Snapshot(), outcome);
      if outcome == JoinFault {
        Fail();
        return;
      }
      sessionOpen := true;
      joins := joins + 1;
      if outcome == PlayerFault {
        Fail();
        return;
      }
      phase := Playing;
    }

    /** The Idle and error handlers (index.js:125-141), installed once playback started. */
    method OnSignal(signal: Signal)
      requires Valid() && phase == Playing
      modifies this
      ensures Snapshot() == Lifecycle.OnSignal(old(Snapshot()), signal)
      ensures Valid() && phase == Playing
      ensures unlinks <= 1 && !fileExists && !sessionOpen
    {
      OnSignalIsValid(Snapshot(), signal);
      if fileExists {
        fileExists := false;
        unlinks := unlinks + 1;
      }
      sessionOpen := false;
      destroys := destroys + 1;
    }
  }
}
