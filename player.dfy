/** `MusicPlayer`: the playback session of one guild, as an object whose
    methods update its fields in place. Every method is proved against the
    transition of the same name in `Playback` (and `shuffle` against the
    Fisher-Yates pass in `FisherYates`), whose properties are proved there. */
module Player {
  import opened Tracks
  import Playback
  import FisherYates

  /** What the lookup at the start of `addToQueue` yields: a track built
      from a video URL or from the first search hit, a search without
      results, or an exception from the lookup libraries. */
  datatype Lookup = Found(track: Track) | NoResults | LookupFailed

  /** The object `addToQueue` returns. */
  datatype AddResult = Added(track: Track, position: nat) | Rejected(message: string)

  /** The snapshot `getQueue` returns. */
  datatype QueueView = QueueView(
    current: Option<Track>,
    queue: seq<Track>,
    repeatMode: RepeatMode,
    volume: int,
    isPlaying: bool)

  class MusicPlayer {
    const guildId: string
    var queue: seq<Track>
    var currentTrack: Option<Track>
    var connection: Option<Connection>
    var repeatMode: RepeatMode
    var volume: int
    var isPlaying: bool
    var voteSkips: set<UserId>
    /** Disconnect timers scheduled by `HandleTrackEnd` that have not fired. */
    var pendingTeardowns: nat

    /** The fields as a `Playback.Session` value. */
    function State(): Playback.Session
      reads this
    {
      Playback.Session(queue, currentTrack, connection, repeatMode, volume,
                       isPlaying, voteSkips, pendingTeardowns)
    }

    ghost predicate Valid()
      reads this
    {
      State().Valid()
    }

    constructor (guildId: string)
      ensures this.guildId == guildId
      ensures State() == Playback.Initial() && Valid()
    {
      this.guildId := guildId;
      queue := [];
      currentTrack := None;
      connection := None;
      repeatMode := Off;
      volume := 100;
      isPlaying := false;
      voteSkips := {};
      pendingTeardowns := 0;
    }

    /** `addToQueue` after the lookup: a found track is appended and its
        1-based position reported; a failed lookup changes nothing and
        reports why. */
    method AddToQueue(lookup: Lookup) returns (r: AddResult)
      requires Valid()
      modifies this
      ensures Valid()
      ensures lookup.Found? ==>
        State() == Playback.Enqueued(old(State()), lookup.track)
        && r == Added(lookup.track, |old(queue)| + 1)
        && queue[r.position - 1] == lookup.track
      ensures lookup.NoResults? ==>
        State() == old(State()) && r == Rejected("No results found!")
      ensures lookup.LookupFailed? ==>
        State() == old(State()) && r == Rejected("Error adding track to queue!")
    {
      match lookup
      case NoResults =>
        r := Rejected("No results found!");
      case LookupFailed =>
        r := Rejected("Error adding track to queue!");
      case Found(track) =>
        queue := queue + [track];
        r := Added(track, |queue|);
    }

    /** `play`, with the requester's voice channel (if any) as `channel` and
        the stream start reduced to marking the session as playing. */
    method Play(channel: Option<ChannelId>)
      requires Valid()
      modifies this
      ensures Valid()
      ensures State() == Playback.Played(old(State()), channel)
    {
      if |queue| == 0 && currentTrack.None? {
        return;
      }
      if currentTrack.None? && |queue| > 0 {
        currentTrack := Some(queue[0]);
        queue := queue[1..];
      }
      if connection.None? {
        if channel.None? {
          return;
        }
        connection := Some(Connection(channel.value));
      }
      isPlaying := true;
    }

    /** `handleTrackEnd`: the handler of both the player's Idle event and its
        'error' event. */
    method HandleTrackEnd()
      requires Valid()
      modifies this
      ensures Valid()
      ensures State() == Playback.TrackEnded(old(State()))
    {
      if repeatMode == Song && currentTrack.Some? {
        queue := [currentTrack.value] + queue;
      } else if repeatMode == Queue && currentTrack.Some? {
        queue := queue + [currentTrack.value];
      }
      currentTrack := None;
      voteSkips := {};
      if |queue| > 0 {
        currentTrack := Some(queue[0]);
        queue := queue[1..];
        if connection.Some? {
          PlayNext();
        }
      } else {
        isPlaying := false;
        pendingTeardowns := pendingTeardowns + 1;
      }
    }

    /** `playNext`, with the stream start reduced to marking the session as
        playing. Its one caller, `HandleTrackEnd`, calls it only with a voice
        connection open. */
    method PlayNext()
      requires Valid() && connection.Some?
      modifies this
      ensures Valid()
      ensures State() == Playback.PlayedNext(old(State()))
    {
      if currentTrack.None? {
        return;
      }
      isPlaying := true;
    }

    /** `skip`: refused unless something is playing. Stopping the audio
        player is what then makes it go idle, which runs `HandleTrackEnd`. */
    method Skip() returns (ok: bool)
      ensures ok == isPlaying
    {
      if !isPlaying {
        return false;
      }
      return true;
    }

    /** `stop`. */
    method Stop()
      requires Valid()
      modifies this
      ensures Valid()
      ensures State() == Playback.Stopped(old(State()))
    {
      queue := [];
      currentTrack := None;
      isPlaying := false;
      if connection.Some? {
        connection := None;
      }
    }

    /** `setVolume`: stores and returns the requested volume clamped to
        [0,100]. */
    method SetVolume(v: int) returns (r: int)
      requires Valid()
      modifies this
      ensures Valid()
      ensures State() == Playback.VolumeSet(old(State()), v)
      ensures r == volume
    {
      volume := if 0 > (if 100 < v then 100 else v) then 0 else (if 100 < v then 100 else v);
      return volume;
    }

    /** `shuffle`: refused for fewer than two queued tracks; otherwise one
        descending Fisher-Yates pass over the queue, in place. `picks`
        records the index drawn in each iteration. */
    method Shuffle() returns (ok: bool, ghost picks: seq<nat>)
      requires Valid()
      modifies this`queue
      ensures Valid()
      ensures ok == (|old(queue)| >= 2)
      ensures !ok ==> queue == old(queue)
      ensures ok ==> FisherYates.IsFullPass(|old(queue)|, picks)
                     && queue == FisherYates.Shuffled(old(queue), |old(queue)| - 1, picks)
      ensures |queue| == |old(queue)| && multiset(queue) == multiset(old(queue))
      ensures State() == old(State()).(queue := queue)
    {
      picks := [];
      if |queue| < 2 {
        return false, picks;
      }
      ghost var original := queue;
      var i := |queue| - 1;
      while i > 0
        invariant 0 <= i < |original|
        invariant |picks| == |original| - 1 - i && FisherYates.ValidPicks(picks, |original| - 1)
        invariant queue == FisherYates.Shuffled(original, |original| - 1, picks)
      {
        var j :| 0 <= j <= i;
        var atI, atJ := queue[i], queue[j];
        queue := queue[i := atJ][j := atI];
        FisherYates.ValidPicksSnoc(picks, |original| - 1, j);
        picks := picks + [j];
        i := i - 1;
      }
      FisherYates.ShuffledPermutes(original, |original| - 1, picks);
      return true, picks;
    }

    /** `getQueue`: a read-only snapshot of the session. */
    method GetQueue() returns (v: QueueView)
      ensures v.current == currentTrack && v.queue == queue
      ensures v.repeatMode == repeatMode && v.volume == volume && v.isPlaying == isPlaying
    {
      v := QueueView(currentTrack, queue, repeatMode, volume, isPlaying);
    }

    /** The body of the five-minute timer `handleTrackEnd` schedules: it
        disconnects only a session that is still idle and connected. */
    method IdleTimeout()
      requires Valid() && pendingTeardowns > 0
      modifies this
      ensures Valid()
      ensures State() == Playback.TimedOut(old(State()))
    {
      pendingTeardowns := pendingTeardowns - 1;
      if !isPlaying && connection.Some? {
        connection := None;
      }
    }
  }

  /** Two tracks, repeat 'off': `play` starts the first, a track end moves to
      the second, and a further track end leaves the session idle with a
      disconnect pending, which the timer then carries out. */
  method RepeatOffScenario(a: Track, b: Track, voiceChannel: ChannelId) {
    var player := new MusicPlayer("guild");
    var ra := player.AddToQueue(Found(a));
    var rb := player.AddToQueue(Found(b));
    assert ra == Added(a, 1) && rb == Added(b, 2);
    player.Play(Some(voiceChannel));
    assert player.currentTrack == Some(a) && player.queue == [b] && player.isPlaying;
    player.HandleTrackEnd();
    assert player.currentTrack == Some(b) && player.queue == [] && player.isPlaying;
    player.HandleTrackEnd();
    assert player.currentTrack.None? && !player.isPlaying && player.pendingTeardowns == 1;
    assert player.connection == Some(Connection(voiceChannel));
    player.IdleTimeout();
    assert player.connection.None?;
  }

  /** Repeat 'song' replays the same track, with skip votes cleared, and
      `stop` still empties the session. */
  method RepeatSongScenario(a: Track, b: Track, voiceChannel: ChannelId) {
    var player := new MusicPlayer("guild");
    var _ := player.AddToQueue(Found(a));
    var _ := player.AddToQueue(Found(b));
    player.Play(Some(voiceChannel));
    player.repeatMode := Song;
    player.voteSkips := {a.requesterId};
    var skipped := player.Skip();
    assert skipped;
    player.HandleTrackEnd();
    assert player.currentTrack == Some(a) && player.queue == [b] && player.voteSkips == {};
    player.Stop();
    assert player.queue == [] && player.currentTrack.None? && player.connection.None?;
    var again := player.Skip();
    assert !again;
  }
}
