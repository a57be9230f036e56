# MusicPlayer playback session, in Dafny

This project models the `MusicPlayer` class of a Discord music bot
(`musicPlayer.js`). One `MusicPlayer` is the playback session of one guild.
It holds:

- a FIFO queue of track records;
- the track now in the current slot;
- a voice connection, or none;
- a repeat mode (`off`, `song` or `queue`);
- a volume;
- an "is playing" flag;
- the set of users who voted to skip.

It changes state in response to these operations:

- a track is added;
- `play` is requested;
- the audio player reports that a track ended or failed;
- the session is stopped;
- the volume is set;
- the queue is shuffled;
- the five-minute idle timer fires.

The model has five modules:

- `Tracks` (tracks.dfy) defines the values a session is made of. These are the track record, the repeat mode, the connection handle and an `Option` for the nullable slots.
- `Playback` (playback.dfy) gives the session as a value (`Session`) and each operation as a transition function on it. It proves:
  - the session invariant;
  - what one track end does under each repeat mode;
  - what many track ends in a row do. Repeat `song` replays the same track for ever. Repeat `queue` rotates the lineup and comes back to the start after one full turn. Repeat `off` plays the queue in order and then runs dry.
- `FisherYates` (fisher_yates.dfy) specifies the in-place shuffle loop. A pass is a fold over the indices drawn by `Math.random`. The module proves that every pass permutes the queue. It also proves that every permutation is the result of some pass.
- `Duration` (duration.dfy) models `formatDuration`. Its partner is a parser for the clock text it writes. The module proves the round trip, that different lengths give different texts, and that 'Live' stands for 0 alone.
- `Player` (player.dfy) is the `MusicPlayer` class itself. It keeps the JavaScript fields as mutable fields. Each method changes them in place as the JavaScript method does. Each method is proved to take the session from `old(State())` to the matching `Playback` transition. `Shuffle` is proved against the `FisherYates` pass.

Outside effects become parameters:

- the result of the track lookup (`Player.Lookup`);
- the requester's voice channel (`channel` in `Play`);
- the index drawn in each shuffle iteration (any `j` in `[0, i]`).

A successful stream start is the step that sets the "is playing" flag.

Where the system's specification and the code disagree, the model follows the code:

- **A track that ends with an error is re-queued like one that finished.** The audio player's `'error'` listener calls the same `handleTrackEnd` (musicPlayer.js:22-25). So under repeat `song` or `queue` a failing track comes back. The specification says a failed track is never re-queued.
- **Idle timers are never cancelled.** `play` and `stop` do not cancel a pending disconnect timer. Every timer that fires re-checks that the session is idle and connected before it disconnects. The model counts pending timers in `pendingTeardowns`. `Playback.UncancelledTimerDisconnectsEarly` shows the effect: a timer left over from an earlier idle period can disconnect a session that has only just gone idle again. The specification describes at most one timer, cancelled by `play` and `stop`.
- **`stop` does not clear the skip votes itself.** `Playback.StoppedIsEmpty` states that `Stopped` keeps `voteSkips`. On a playing session, though, `stop`'s call to `this.player.stop()` (musicPlayer.js:186) makes the audio player go idle. The idle listener (musicPlayer.js:18-20) then runs `handleTrackEnd`, which clears the votes and schedules one more timer. The model leaves that follow-up event to an explicit `HandleTrackEnd` call (see "## Left out").
- **Stale signals are not suppressed.** Nothing in the code ignores a track-end signal from a stream that `stop` superseded, so none of the model's transitions do either.

## Model

| member | source | states |
|---|---|---|
| Player.MusicPlayer.constructor | musicPlayer.js:7-16 | A new session has an empty queue, no current track and no connection. Repeat is off, volume is 100, it is not playing, there are no votes and no timers, and the session invariant holds. |
| Player.MusicPlayer.AddToQueue | musicPlayer.js:28-68 | A found track is appended at the tail, and its 1-based position is the new queue length. Position `r.position - 1` holds the track. A search without results or a failed lookup changes nothing and returns the source's message for that case. |
| Player.MusicPlayer.Play | musicPlayer.js:70-101 | The fields afterwards are `Playback.Played` of the fields before, and the session invariant is kept. |
| Player.MusicPlayer.HandleTrackEnd | musicPlayer.js:124-152 | The fields afterwards are `Playback.TrackEnded` of the fields before, and the session invariant is kept. |
| Player.MusicPlayer.PlayNext | musicPlayer.js:154-174 | Called, as its one caller does, with a voice connection open. Without a current track nothing changes. Otherwise the session is marked playing and nothing else changes. The session invariant is kept. |
| Player.MusicPlayer.Skip | musicPlayer.js:176-181 | A skip is accepted exactly when the session is playing, and the call changes no field. |
| Player.MusicPlayer.Stop | musicPlayer.js:183-193 | The fields afterwards are `Playback.Stopped` of the fields before, and the session invariant is kept. |
| Player.MusicPlayer.SetVolume | musicPlayer.js:195-206 | The stored volume becomes `Playback.Clamp(v)`, the same value is returned, and nothing else changes. |
| Player.MusicPlayer.Shuffle | musicPlayer.js:208-217 | With fewer than two queued tracks it returns false and leaves the queue unchanged. Otherwise it returns true, and the queue is a full Fisher-Yates pass over the old queue with the recorded draws. Either way, length and multiset of tracks are unchanged, and so is every other field. |
| Player.MusicPlayer.GetQueue | musicPlayer.js:232-240 | The snapshot has the current track, queue, repeat mode, volume and playing flag of the session, and the call changes nothing. |
| Player.MusicPlayer.IdleTimeout | musicPlayer.js:145-150 | When the timer fires, the fields become `Playback.TimedOut` of the fields before: one timer fewer, and the connection released only if the session is idle and connected. |
| Playback.Clamp | musicPlayer.js:196 | The result is in [0,100]. It is 0 below 0, 100 above 100, and the input itself in between. |
| Playback.TransitionsKeepValid | musicPlayer.js:7-16 | The initial state satisfies the invariant, and every transition keeps it: the volume stays in [0,100], and the session is "playing" only with a current track and an open connection. `playNext` keeps it when a connection is open, which is the only way `handleTrackEnd` calls it (musicPlayer.js:139-140). |
| Playback.EnqueuedAllQueue | musicPlayer.js:61 | Appending tracks one by one grows the queue by exactly those tracks at its tail, in order, and changes nothing else. |
| Playback.PlayedLineup | musicPlayer.js:70-101 | `play` keeps the lineup (current track, then the queue) as it was. With an empty lineup it is a no-op. With a non-empty lineup and a connection or a voice channel, it plays, and the current track is the first of the lineup. An existing connection is kept. |
| Playback.TrackEndedOutcome | musicPlayer.js:124-152 | A track end clears the skip votes and keeps the repeat mode, volume and connection. When the re-queued lineup is empty, the session goes idle: no current track, empty queue, not playing, one more timer. Otherwise a track is current, and it plays exactly when a connection is open. |
| Playback.TrackEndedRepeatSong | musicPlayer.js:125-137 | Under repeat `song` with a current track, the same track stays current and the queue is unchanged. |
| Playback.TrackEndedRepeatQueue | musicPlayer.js:128-137 | Under repeat `queue` with a current track, the lineup rotates left by one, and its multiset of tracks is unchanged. |
| Playback.TrackEndedOff | musicPlayer.js:133-143 | Under repeat `off` (or with no current track), a non-empty queue gives up its head as the new current track and keeps the rest. An empty queue leaves the session idle. |
| Playback.RepeatSongHolds | musicPlayer.js:124-152 | Under repeat `song`, after any number of track ends the same track is current and the queue is unchanged. |
| Playback.RepeatQueueRotates | musicPlayer.js:124-152 | Under repeat `queue`, after k track ends (k at most the lineup length) the lineup is the original rotated left by k. |
| Playback.RepeatQueueFullTurn | musicPlayer.js:124-152 | Under repeat `queue`, after as many track ends as there are tracks in the lineup, the current track and the queue are back where they started. |
| Playback.OffPlaysQueueInOrder | musicPlayer.js:133-141 | Under repeat `off`, after k track ends the k-th queued track is current and the tracks after it are still queued. |
| Playback.OffRunsDry | musicPlayer.js:136-150 | Under repeat `off`, one track end after the last queued track the session is idle: nothing current or queued, not playing, and a disconnect timer pending. |
| Playback.StoppedIsEmpty | musicPlayer.js:183-193 | After `stop` the lineup is empty, the session is not playing and has no connection, whatever the repeat mode. Repeat mode, volume and skip votes are kept. |
| Playback.UncancelledTimerDisconnectsEarly | musicPlayer.js:142-150 | Timers are not cancelled. Take an idle, connected session with a timer pending. Give it a track: `play` starts it over the existing connection. Let it end: the session is idle again with one more timer. The first timer to fire then releases the connection at once, whichever idle period scheduled it. |
| Playback.TimedOutReleasesOnlyWhenIdle | musicPlayer.js:145-150 | A firing timer keeps the connection of a playing session and releases that of an idle one. The lineup and the playing flag are unchanged. |
| FisherYates.Shuffled | musicPlayer.js:211-214 | Any sequence of in-range draws leaves the queue length unchanged. |
| FisherYates.SwapPermutes | musicPlayer.js:213 | One swap keeps the multiset of tracks. |
| FisherYates.ShuffledPermutes | musicPlayer.js:211-214 | Every pass, finished or not, is a permutation of the queue it started from. |
| FisherYates.ShuffledIsTopDown | musicPlayer.js:211-214 | A full pass, as the loop runs it, equals the pass read from the front: the first draw picks the last element, and the rest of the pass shuffles the elements below it. |
| FisherYates.TopDownReachesAll | musicPlayer.js:211-214 | For every permutation of the queue there are draws whose front-read pass gives exactly that permutation. |
| FisherYates.EveryPermutationReachable | musicPlayer.js:208-217 | For every permutation of a non-empty queue there are valid draws (j in [0, i] for each i) for which the shuffle loop produces exactly that permutation. |
| Duration.FormatDuration | musicPlayer.js:219-230 | 0 is shown as 'Live'. Any positive length ends in a colon and two digits that give its seconds modulo 60. |
| Duration.Numeral | musicPlayer.js:227 | The decimal text of a number is non-empty and all digits. It has no leading zero unless the number is 0, one digit exactly below 10, and two digits exactly from 10 to 99. |
| Duration.PadTwoField | musicPlayer.js:227-229 | A field below 100 padded to two places is two digits that denote the field. |
| Duration.ValueOfNumeral | musicPlayer.js:227 | The decimal text of a number denotes that number. |
| Duration.ClockArithmetic | musicPlayer.js:222-224 | Hours, minutes and seconds as computed add back to the length in seconds, and the minutes are below 60. |
| Duration.FormatDurationClock | musicPlayer.js:219-230 | A positive length is `h:MM:SS` from one hour on and `m:SS` below it. The first field has no leading zero unless it is "0", the other fields are two digits below 60, and the fields add back to the length. |
| Duration.FormatDurationLive | musicPlayer.js:220 | 'Live' is shown for 0 and for no other length. |
| Duration.ParseFormatRoundTrip | musicPlayer.js:219-230 | Reading back what `formatDuration` wrote gives the original length. |
| Duration.FormatDurationInjective | musicPlayer.js:219-230 | Two different lengths are never shown as the same text. |

## Left out

- The YouTube lookup and the building of the track record in `addToQueue` (musicPlayer.js:33-59) call libraries this model does not include. Their outcome is the `Lookup` parameter of `AddToQueue`, and `formatDuration`'s use there is not connected to the track record. The `duration` field is opaque text.
- Joining a voice channel, creating the audio stream and starting the audio player (musicPlayer.js:81-100, 158-167) are foreign I/O. A stream start is modelled as succeeding, which marks the session as playing. The `catch` branches that call `handleTrackEnd` when a stream cannot be created (musicPlayer.js:118-121, 170-173) are not modelled.
- Player.MusicPlayer.Play and Player.MusicPlayer.PlayNext: the audio gain `this.volume / 100` is floating point and is not modelled. So are the now-playing embed and the message sent to the channel (musicPlayer.js:98, 103-116, 165).
- Player.MusicPlayer.SetVolume: applying the new gain to a live resource (musicPlayer.js:198-203) is a library call on a floating-point value and is not modelled. Volumes are integers. Non-numeric input, which `Math.max`/`Math.min` would turn into `NaN`, is not modelled.
- The event wiring (musicPlayer.js:18-25) is asynchronous delivery by the audio library. A track end or error is the explicit call `HandleTrackEnd`. For the same reason, the idle event that the audio player raises after `skip` or `stop` stops it is not part of `Skip` or `Stop`.
- Player.MusicPlayer.PlayNext requires an open voice connection. Its one caller, `handleTrackEnd`, checks for one first (musicPlayer.js:139-140). A direct call without a connection is not modelled. Such a call would mark the session as playing with no connection to play through.
- Player.MusicPlayer.Skip models the guard and the returned flag. The track end that follows `player.stop()` arrives through the idle event (see above).
- Player.MusicPlayer.IdleTimeout: the five-minute delay of the timer is not modelled. A pending timer is a count in `pendingTeardowns`, and its body may run at any later point.
- Player.MusicPlayer.Shuffle: `Math.random` is replaced by a choice of any index in `[0, i]`. The model proves that every permutation can come out, but not that every permutation is equally likely.
- Player.MusicPlayer.GetQueue returns copies. The source hands out the live queue array, so a caller could alias it. That aliasing is not modelled.
- Duration.FormatDurationClock: `formatDuration` is modelled for whole, non-negative numbers of seconds. Fractional, negative or string inputs, which JavaScript would coerce, are not modelled. Neither are very large lengths: JavaScript numbers are doubles, so `/` and `%` lose precision above 2^53, and from 10^21 on `toString()` writes exponent notation, which `Duration.Numeral` does not produce.
- Adding a skip vote is done outside musicPlayer.js. The model keeps the `voteSkips` set and proves when it is cleared. play.js (the command handler) and ready.js (presence updates) are not part of this model.
