/**
 * The `current` command: given the session slot and what the provider reports,
 * decide which single answer the user gets. The read lock around the session
 * and the network call are not modelled: the provider's answer is an input,
 * consulted only when a session exists.
 */
module CurrentCommand {
  import opened Wrappers
  import opened Spotify
  import opened PlaybackCard
  import opened Chat

  const UnauthorizedNotice := "The application isn't authenticated.\nrun '/authenticate' to connect."
  const NothingPlayingNotice := "Nothing Playing"

  /** The provider's answer to a playback query: an API error, no playback, or a playback state. */
  type Fetch = Result<Option<PlaybackState>, string>

  /** What one run of `current` ends in. */
  datatype Outcome =
    | Unauthorized           // no session: the "not authenticated" notice
    | NothingPlaying         // no playback, or playback without an item
    | Playing(card: Card)    // one playback card
    | QueryFailed(error: string)  // the playback query failed; the command returns the error

  /** A reported item always comes with a progress (the source unwraps it). */
  predicate ProgressKnown(fetch: Fetch)
  {
    fetch.Success? && fetch.value.Some? && fetch.value.value.item.Some? ==> fetch.value.value.progress.Some?
  }

  /** The early-return chain of `current` over session, playback and item. */
  function Dispatch(session: Option<Client>, fetch: Fetch, formatDelta: Delta -> string): (outcome: Outcome)
    requires session.Some? ==> ProgressKnown(fetch)
    ensures outcome.Unauthorized? <==> session.None?
    ensures outcome.QueryFailed? <==> session.Some? && fetch.Failure?
    ensures outcome.QueryFailed? ==> fetch.Failure? && outcome.error == fetch.error
    ensures outcome.NothingPlaying? <==>
      session.Some? && fetch.Success? && (fetch.value.None? || fetch.value.value.item.None?)
    ensures outcome.Playing? <==>
      session.Some? && fetch.Success? && fetch.value.Some? && fetch.value.value.item.Some?
    ensures outcome.Playing? ==>
      fetch.Success? && fetch.value.Some? && fetch.value.value.item.Some? && fetch.value.value.progress.Some? &&
      outcome.card == Render(fetch.value.value.item.value, fetch.value.value, formatDelta)
  {
    match session
    case None => Unauthorized
    case Some(_) =>
      match fetch
      case Failure(e) => QueryFailed(e)
      case Success(None) => NothingPlaying
      case Success(Some(playback)) =>
        match playback.item
        case None => NothingPlaying
        case Some(item) => Playing(Render(item, playback, formatDelta))
  }

  /** The messages `current` sends for an outcome: one notice, one card, or nothing when the query failed. */
  function Replies(outcome: Outcome): (messages: seq<Message>)
    ensures outcome.QueryFailed? <==> messages == []
    ensures |messages| <= 1
    ensures EmbedCount(messages) == (if outcome.Playing? then 1 else 0)
    ensures outcome.Playing? ==> messages == [Embed(outcome.card)]
    ensures outcome.Unauthorized? <==> messages == [Reply(UnauthorizedNotice)]
    ensures outcome.NothingPlaying? <==> messages == [Say(NothingPlayingNotice)]
  {
    match outcome
    case Unauthorized => [Reply(UnauthorizedNotice)]
    case NothingPlaying => [Say(NothingPlayingNotice)]
    case Playing(card) => [Embed(card)]
    case QueryFailed(_) => []
  }

  /** What the command returns: the query's error, or success. */
  function CommandResult(outcome: Outcome): (r: Result<(), string>)
    ensures r.Failure? <==> outcome.QueryFailed?
    ensures r.Failure? ==> r.error == outcome.error
  {
    match outcome
    case QueryFailed(e) => Failure(e)
    case _ => Success(())
  }

  /**
   * Exactly one card is sent when a session, a playback and an item are all
   * present, and none otherwise; without a session the only message is the
   * notice, whatever the provider would have said.
   */
  lemma CurrentSendsOneCardAtMost(session: Option<Client>, fetch: Fetch, formatDelta: Delta -> string)
    requires session.Some? ==> ProgressKnown(fetch)
    ensures var sent := Replies(Dispatch(session, fetch, formatDelta));
      (EmbedCount(sent) == 1 <==>
        session.Some? && fetch.Success? && fetch.value.Some? && fetch.value.value.item.Some?) &&
      (EmbedCount(sent) == 0 <==>
        !(session.Some? && fetch.Success? && fetch.value.Some? && fetch.value.value.item.Some?)) &&
      (session.None? ==> sent == [Reply(UnauthorizedNotice)])
  {
  }
}
