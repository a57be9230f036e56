/** The values a playback session is built from: track records, the repeat
    setting, the voice connection handle and a nullable slot. */
module Tracks {

  /** A nullable slot (`currentTrack`, `connection`). */
  datatype Option<+T> = None | Some(value: T)

  /** A Discord user id (`message.author.id`). */
  type UserId = string

  /** A Discord voice channel id. */
  type ChannelId = string

  /** The record `addToQueue` builds for one requested video. It is never
      changed after it is built; the model treats every field as opaque text. */
  datatype Track = Track(
    title: string,
    url: string,
    duration: string,
    thumbnail: string,
    requester: string,
    requesterId: UserId)

  /** The three values of `repeatMode`: 'off', 'song' and 'queue'. */
  datatype RepeatMode = Off | Song | Queue

  /** The handle `joinVoiceChannel` returns, known only by the channel it joined. */
  datatype Connection = Connection(channelId: ChannelId)
}
