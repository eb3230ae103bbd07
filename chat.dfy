/** The kinds of message the commands send to the chat platform. */
module Chat {
  import opened PlaybackCard

  datatype Message =
    | Prompt(url: string)  // the ephemeral authentication prompt with its "Open URL" link
    | Reply(text: string)  // `ctx.reply`: a plain text reply
    | Say(text: string)    // `ctx.say`: a plain text message
    | Embed(card: Card)    // a structured playback card

  /** How many structured cards a list of messages holds. */
  function EmbedCount(messages: seq<Message>): nat
  {
    if messages == [] then 0
    else (if messages[0].Embed? then 1 else 0) + EmbedCount(messages[1..])
  }
}
