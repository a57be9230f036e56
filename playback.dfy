/** The playback session of one guild as a value: the fields of a
    `MusicPlayer`, the transition each of its operations makes, and what the
    repeat policy does to the lineup of tracks over many track ends. */
module Playback {
  import opened Tracks

  /** The fields of one `MusicPlayer`. `pendingTeardowns` stands for the
      five-minute disconnect timers `handleTrackEnd` has scheduled that have
      not fired yet; the source never cancels one. */
  datatype Session = Session(
    queue: seq<Track>,
    current: Option<Track>,
    connection: Option<Connection>,
    repeatMode: RepeatMode,
    volume: int,
    isPlaying: bool,
    voteSkips: set<UserId>,
    pendingTeardowns: nat)
  {
    /** What every operation keeps: the stored volume lies in [0,100], and the
        session is only marked playing with a track in the current slot and a
        voice connection open. */
    predicate Valid() {
      0 <= volume <= 100 && (isPlaying ==> current.Some? && connection.Some?)
    }
  }

  /** The state the constructor sets up. */
  function Initial(): Session {
    Session([], None, None, Off, 100, false, {}, 0)
  }

  /** The tracks still to be heard: the current one first, then the queue. */
  function Lineup(s: Session): seq<Track> {
    (if s.current.Some? then [s.current.value] else []) + s.queue
  }

  /** `this.queue.push(track)`. */
  function Enqueued(s: Session, t: Track): Session {
    s.(queue := s.queue + [t])
  }

  /** Enqueues each of `ts` in turn. */
  function EnqueuedAll(s: Session, ts: seq<Track>): Session
    decreases |ts|
  {
    if ts == [] then s else EnqueuedAll(Enqueued(s, ts[0]), ts[1..])
  }

  /** A successful stream start: the audio player now plays a resource. */
  function Streaming(s: Session): Session {
    s.(isPlaying := true)
  }

  /** `playNext`: starts the current track, if there is one. */
  function PlayedNext(s: Session): Session {
    if s.current.None? then s else Streaming(s)
  }

  /** `play`: nothing happens with nothing to play; otherwise an empty current
      slot takes the head of the queue, a missing connection is opened to the
      requester's voice channel (or `play` gives up when the requester is in
      none), and the current track starts. */
  function Played(s: Session, channel: Option<ChannelId>): Session {
    if |s.queue| == 0 && s.current.None? then s
    else
      var s1 := if s.current.None? then s.(current := Some(s.queue[0]), queue := s.queue[1..]) else s;
      if s1.connection.Some? then Streaming(s1)
      else if channel.None? then s1
      else Streaming(s1.(connection := Some(Connection(channel.value))))
  }

  /** The queue after the repeat policy has dealt with the finished track. */
  function Requeued(s: Session): seq<Track> {
    match s.current
    case None => s.queue
    case Some(t) =>
      match s.repeatMode
      case Song => [t] + s.queue
      case Queue => s.queue + [t]
      case Off => s.queue
  }

  /** `handleTrackEnd`, run when the audio player goes idle or reports an error. */
  function TrackEnded(s: Session): Session {
    var q := Requeued(s);
    if |q| > 0 then
      var next := s.(queue := q[1..], current := Some(q[0]), voteSkips := {});
      if s.connection.Some? then PlayedNext(next) else next
    else
      s.(queue := [], current := None, voteSkips := {}, isPlaying := false,
         pendingTeardowns := s.pendingTeardowns + 1)
  }

  /** `n` track ends in a row, with nothing else happening in between. */
  function TrackEnds(s: Session, n: nat): Session {
    if n == 0 then s else TrackEnded(TrackEnds(s, n - 1))
  }

  /** `stop`. */
  function Stopped(s: Session): Session {
    s.(queue := [], current := None, isPlaying := false, connection := None)
  }

  /** `Math.max(0, Math.min(100, v))`. */
  function Clamp(v: int): (r: int)
    ensures 0 <= r <= 100
    ensures v < 0 ==> r == 0
    ensures v > 100 ==> r == 100
    ensures 0 <= v <= 100 ==> r == v
  {
    if v > 100 then 100 else if v < 0 then 0 else v
  }

  /** `setVolume`, on the stored volume. */
  function VolumeSet(s: Session, v: int): Session {
    s.(volume := Clamp(v))
  }

  /** One disconnect timer fires: the connection is released only if the
      session is idle and still connected. */
  function TimedOut(s: Session): Session
    requires s.pendingTeardowns > 0
  {
    var s1 := s.(pendingTeardowns := s.pendingTeardowns - 1);
    if !s.isPlaying && s.connection.Some? then s1.(connection := None) else s1
  }

  // ---------------------------------------------------------------------
  // The invariant

  /** Every operation keeps `Valid`. */
  lemma TransitionsKeepValid(s: Session, t: Track, ts: seq<Track>, channel: Option<ChannelId>, v: int)
    requires s.Valid()
    ensures Initial().Valid()
    ensures Enqueued(s, t).Valid() && EnqueuedAll(s, ts).Valid()
    ensures Played(s, channel).Valid()
    ensures s.connection.Some? ==> PlayedNext(s).Valid()
    ensures TrackEnded(s).Valid()
    ensures Stopped(s).Valid()
    ensures VolumeSet(s, v).Valid()
    ensures s.pendingTeardowns > 0 ==> TimedOut(s).Valid()
  {
    EnqueuedAllQueue(s, ts);
  }

  // ---------------------------------------------------------------------
  // Enqueueing

  /** Enqueueing keeps insertion order: the queue grows by exactly the
      enqueued tracks, at its tail, and nothing else changes. */
  lemma {:induction false} EnqueuedAllQueue(s: Session, ts: seq<Track>)
    ensures EnqueuedAll(s, ts) == s.(queue := s.queue + ts)
    decreases |ts|
  {
    if ts != [] {
      EnqueuedAllQueue(Enqueued(s, ts[0]), ts[1..]);
      assert s.queue + [ts[0]] + ts[1..] == s.queue + ts;
    }
  }

  // ---------------------------------------------------------------------
  // play

  /** `play` loses and reorders no track; it starts one exactly when there is
      something to play and a connection is open or can be opened, and then
      the track playing is the first of the lineup. */
  lemma PlayedLineup(s: Session, channel: Option<ChannelId>)
    ensures Lineup(Played(s, channel)) == Lineup(s)
    ensures Lineup(s) == [] ==> Played(s, channel) == s
    ensures Lineup(s) != [] && (s.connection.Some? || channel.Some?) ==>
      Played(s, channel).isPlaying && Played(s, channel).current == Some(Lineup(s)[0])
    ensures s.connection.Some? ==> Played(s, channel).connection == s.connection
  {
    if s.current.None? && |s.queue| > 0 {
      assert [s.queue[0]] + s.queue[1..] == s.queue;
    }
  }

  // ---------------------------------------------------------------------
  // One track end

  /** Every track end clears the skip votes. When nothing is left to play the
      session goes idle: no current track, not playing, and one more
      disconnect timer scheduled. Otherwise the next track takes the slot, and
      it plays exactly when a connection is open. */
  lemma TrackEndedOutcome(s: Session)
    requires s.Valid()
    ensures TrackEnded(s).voteSkips == {}
    ensures TrackEnded(s).repeatMode == s.repeatMode && TrackEnded(s).volume == s.volume
    ensures TrackEnded(s).connection == s.connection
    ensures Requeued(s) == [] ==>
      TrackEnded(s).current.None? && TrackEnded(s).queue == [] && !TrackEnded(s).isPlaying
      && TrackEnded(s).pendingTeardowns == s.pendingTeardowns + 1
    ensures Requeued(s) != [] ==>
      TrackEnded(s).current.Some?
      && TrackEnded(s).isPlaying == s.connection.Some?
      && TrackEnded(s).pendingTeardowns == s.pendingTeardowns
  {
  }

  /** Repeat 'song': the finished track is put back at the head and taken
      straight out again, so it stays current and the queue is untouched. */
  lemma TrackEndedRepeatSong(s: Session)
    requires s.repeatMode == Song && s.current.Some?
    ensures TrackEnded(s).current == s.current
    ensures TrackEnded(s).queue == s.queue
  {
    assert ([s.current.value] + s.queue)[1..] == s.queue;
  }

  /** Repeat 'queue': the finished track goes to the tail and the head comes
      up, so the lineup turns by one place and keeps the same tracks. */
  lemma TrackEndedRepeatQueue(s: Session)
    requires s.repeatMode == Queue && s.current.Some?
    ensures TrackEnded(s).current.Some?
    ensures Lineup(TrackEnded(s)) == Lineup(s)[1..] + [Lineup(s)[0]]
    ensures multiset(Lineup(TrackEnded(s))) == multiset(Lineup(s))
  {
    var t := s.current.value;
    var q := s.queue + [t];
    assert Lineup(TrackEnded(s)) == [q[0]] + q[1..] == q;
    assert Lineup(s) == [t] + s.queue;
  }

  /** Repeat 'off' (or no current track): the finished track is dropped and
      the head of the queue, if any, becomes current. */
  lemma TrackEndedOff(s: Session)
    requires s.repeatMode == Off || s.current.None?
    ensures |s.queue| > 0 ==>
      TrackEnded(s).current == Some(s.queue[0]) && TrackEnded(s).queue == s.queue[1..]
    ensures |s.queue| == 0 ==>
      TrackEnded(s).current.None? && TrackEnded(s).queue == [] && !TrackEnded(s).isPlaying
  {
  }

  // ---------------------------------------------------------------------
  // Many track ends

  /** Repeat 'song' plays the same track for ever: after any number of track
      ends it is still current and the queue has not moved. */
  lemma {:induction false} RepeatSongHolds(s: Session, n: nat)
    requires s.repeatMode == Song && s.current.Some?
    ensures TrackEnds(s, n).repeatMode == Song
    ensures TrackEnds(s, n).current == s.current
    ensures TrackEnds(s, n).queue == s.queue
  {
    if n > 0 {
      RepeatSongHolds(s, n - 1);
      TrackEndedRepeatSong(TrackEnds(s, n - 1));
    }
  }

  /** Repeat 'queue' turns the lineup: after k <= |lineup| track ends the
      lineup is the original one rotated left by k. */
  lemma {:induction false} RepeatQueueRotates(s: Session, k: nat)
    requires s.repeatMode == Queue && s.current.Some?
    requires k <= |Lineup(s)|
    ensures TrackEnds(s, k).repeatMode == Queue && TrackEnds(s, k).current.Some?
    ensures Lineup(TrackEnds(s, k)) == Lineup(s)[k..] + Lineup(s)[..k]
  {
    if k > 0 {
      RepeatQueueRotates(s, k - 1);
      var before := TrackEnds(s, k - 1);
      TrackEndedRepeatQueue(before);
      RotateStep(Lineup(s), k);
    }
  }

  /** Turning a lineup rotated by k - 1 once more rotates it by k. */
  lemma RotateStep(l: seq<Track>, k: nat)
    requires 0 < k <= |l|
    ensures var r := l[k - 1..] + l[..k - 1]; r[1..] + [r[0]] == l[k..] + l[..k]
  {
    var r := l[k - 1..] + l[..k - 1];
    assert r[0] == l[k - 1];
    assert r[1..] == l[k..] + l[..k - 1];
    assert l[..k - 1] + [l[k - 1]] == l[..k];
  }

  /** After one full turn, as many track ends as there are tracks in the
      lineup, the session has the same current track and queue again. */
  lemma RepeatQueueFullTurn(s: Session)
    requires s.repeatMode == Queue && s.current.Some?
    ensures TrackEnds(s, |s.queue| + 1).current == s.current
    ensures TrackEnds(s, |s.queue| + 1).queue == s.queue
  {
    var l := Lineup(s);
    RepeatQueueRotates(s, |l|);
    var after := TrackEnds(s, |l|);
    assert Lineup(after) == l by {
      assert l[|l|..] + l[..|l|] == l;
    }
    var x, y := [after.current.value] + after.queue, [s.current.value] + s.queue;
    assert x == y;
    assert x[0] == after.current.value && y[0] == s.current.value;
    assert x[1..] == after.queue && y[1..] == s.queue;
  }

  /** Repeat 'off' works through the queue in order: after k track ends the
      k-th queued track is current and the rest are still queued. */
  lemma {:induction false} OffPlaysQueueInOrder(s: Session, k: nat)
    requires s.repeatMode == Off
    requires 1 <= k <= |s.queue|
    ensures TrackEnds(s, k).repeatMode == Off
    ensures TrackEnds(s, k).current == Some(s.queue[k - 1])
    ensures TrackEnds(s, k).queue == s.queue[k..]
  {
    TrackEndedOff(s);
    if k > 1 {
      OffPlaysQueueInOrder(s, k - 1);
      TrackEndedOff(TrackEnds(s, k - 1));
      assert s.queue[k - 1..][1..] == s.queue[k..];
    }
  }

  /** Repeat 'off' runs dry: one track end after the last queued track the
      session is idle, with nothing queued, and a disconnect timer pending. */
  lemma OffRunsDry(s: Session)
    requires s.repeatMode == Off
    ensures TrackEnds(s, |s.queue| + 1).current.None?
    ensures TrackEnds(s, |s.queue| + 1).queue == []
    ensures !TrackEnds(s, |s.queue| + 1).isPlaying
    ensures TrackEnds(s, |s.queue| + 1).pendingTeardowns > 0
  {
    if |s.queue| > 0 {
      OffPlaysQueueInOrder(s, |s.queue|);
    }
    TrackEndedOff(TrackEnds(s, |s.queue|));
  }

  // ---------------------------------------------------------------------
  // stop, setVolume and the disconnect timer

  /** `stop` empties the session whatever the repeat mode, and keeps the
      settings. */
  lemma StoppedIsEmpty(s: Session)
    ensures Lineup(Stopped(s)) == []
    ensures !Stopped(s).isPlaying && Stopped(s).connection.None?
    ensures Stopped(s).repeatMode == s.repeatMode && Stopped(s).volume == s.volume
    ensures Stopped(s).voteSkips == s.voteSkips
  {
  }

  /** Disconnect timers are never cancelled. A session that went idle (one
      timer pending), was given a track and played it, and went idle again
      has two timers pending; the first to fire, scheduled in the earlier
      idle period, disconnects straight away, well before the second idle
      period has lasted five minutes. */
  lemma UncancelledTimerDisconnectsEarly(s: Session, u: Track)
    requires s.Valid() && s.repeatMode == Off
    requires s.current.None? && s.queue == [] && s.connection.Some?
    requires s.pendingTeardowns > 0
    ensures var replayed := Played(Enqueued(s, u), None);
      replayed.isPlaying && replayed.current == Some(u)
      && TrackEnded(replayed).pendingTeardowns == s.pendingTeardowns + 1
      && TrackEnded(replayed).connection == s.connection
      && TimedOut(TrackEnded(replayed)).connection.None?
      && TimedOut(TrackEnded(replayed)).pendingTeardowns == s.pendingTeardowns
  {
  }

  /** A disconnect timer never drops the connection of a playing session, and
      drops that of an idle connected one. */
  lemma TimedOutReleasesOnlyWhenIdle(s: Session)
    requires s.pendingTeardowns > 0
    ensures s.isPlaying ==> TimedOut(s).connection == s.connection
    ensures !s.isPlaying ==> TimedOut(s).connection.None?
    ensures Lineup(TimedOut(s)) == Lineup(s) && TimedOut(s).isPlaying == s.isPlaying
  {
  }
}
