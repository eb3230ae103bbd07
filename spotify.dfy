/**
 * The values the streaming-service client hands to the commands. The client
 * itself (HTTP, OAuth, token refresh) is not part of this model: its answers
 * are inputs.
 */
module Spotify {
  import opened Wrappers

  /** A signed time span in milliseconds, as `chrono::TimeDelta` carries it. */
  type Delta = int

  /** The access token a successful code exchange leaves in the client. */
  type Token = string

  /** An authenticated client handle: the client built by the command, with the token of its last exchange. */
  datatype Client = Client(token: Token)

  /** The provider's three-way repeat mode. */
  datatype RepeatState = Off | Track | Context

  /** A track or episode normalised for display (`StandardItem`). */
  datatype StandardItem = StandardItem(name: string, artists: seq<string>, duration: Delta, image: string)

  /**
   * The part of the provider's playback report the commands read. `item` holds
   * the already-normalised item; `progress` may be missing.
   */
  datatype PlaybackState = PlaybackState(
    progress: Option<Delta>,
    shuffleState: bool,
    repeatState: RepeatState,
    item: Option<StandardItem>)
}
