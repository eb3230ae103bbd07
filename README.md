# Delegatify commands, modelled in Dafny

Delegatify is a Discord bot that connects one Spotify account and shows what it is playing. This project models the deterministic core of its command file `src/commands.rs`. The Discord and Spotify calls become plain inputs, so three pieces of logic are left:

- **`authenticate`**: the bot sends a prompt with an authorization link. It then loops over presses of its "Authenticate" button. Each press opens a code-entry form. A dismissed form is answered with "No Input provided". A submitted code is exchanged for a token. A successful exchange is answered with "Successfully Authenticated!" and installs the client in the shared session slot. A failed exchange ends the command with an error that starts with "Failed to Authenticate:\n". The loop ends when no press comes within the collector's timeout. Here that is the end of a finite event sequence.
- **`current`**: a chain of early returns over three optional values: the session, the playback and the playback's item. The command sends exactly one of three things: the "not authenticated" notice, "Nothing Playing", or one playback card. If the playback query fails, it sends nothing and returns the error.
- **`current_playback`**: builds the card's text fields. The title is `"<name> - <artists joined by ', '>"`. The duration is `"<elapsed> / <total>"`. Shuffle is "On" or "Off". Repeat is "Off", "Track" or "Context".

Modules:

- `Wrappers`: `Option` and `Result`.
- `Spotify`: the values the streaming service hands over: client handle, repeat mode, normalised item, playback state.
- `PlaybackCard`: the card fields and their properties.
- `Chat`: the kinds of message sent.
- `CurrentCommand`: the `current` dispatch.
- `AuthFlow`: the `authenticate` loop as a pure function, `Loop`, with its properties.
- `Commands`: class `Bot`, which holds the session slot and the log of sent messages. Its `Authenticate` method runs the loop in place and is proved equal to `AuthFlow.Loop`. Its `Current` method is proved equal to `CurrentCommand.Dispatch` followed by the replies for that outcome.

Facts about the code that the model keeps:

- A failed token exchange ends the command through `?` (src/commands.rs:69).
- The form accepts codes of 64 to 512 characters, both bounds included (src/commands.rs:16-17).
- The button collector filters only on the button id "open_modal" (src/commands.rs:55). Any press of a button with that id counts.
- The thumbnail is the item's image string, passed on as it is (src/commands.rs:145).

`Commands.AuthenticateThenCurrent` is an example run. A form is dismissed, then a 70-character code is exchanged successfully. The example shows the session is installed and the messages sent. Then `current` runs and does not answer with the "not authenticated" notice.

## Model

| member | source | states |
|---|---|---|
| PlaybackCard.Title | src/commands.rs:144 | the title begins with the item's name followed by " - " |
| PlaybackCard.TitleShowsArtist | src/commands.rs:144 | every artist of the item appears in the title, after the name and separator |
| PlaybackCard.TitleOfTwoArtists | src/commands.rs:144 | a song "Song" by "A" and "B" gets exactly the title "Song - A, B" |
| PlaybackCard.Join | src/commands.rs:144 | `join` of no parts is empty, and a join of parts starts with the first part |
| PlaybackCard.JoinEndsWithLast | src/commands.rs:144 | a join of parts ends with the last part |
| PlaybackCard.JoinSplit | src/commands.rs:144 | joining the artists with ", " splits at any inner boundary into the joins of the two halves glued by the separator |
| PlaybackCard.JoinShowsPart | src/commands.rs:144 | each joined part appears in the joined text at a computed offset |
| PlaybackCard.ShuffleField | src/commands.rs:133 | the Shuffle field is "On" exactly when shuffle is on, and "Off" exactly when it is off |
| PlaybackCard.RepeatField | src/commands.rs:134-138 | the Repeat field is total over the three modes and reads back as the same mode |
| PlaybackCard.ParseRepeat | src/commands.rs:134-138 | exactly the three strings "Off", "Track", "Context" name a repeat mode |
| PlaybackCard.RepeatFieldInjective | src/commands.rs:134-138 | two repeat modes with the same Repeat field are the same mode |
| PlaybackCard.DurationField | src/commands.rs:128-132 | the Duration field is the elapsed text, then " / ", then the total text, with nothing else |
| PlaybackCard.DurationRoundTrip | src/commands.rs:128-132 | the Duration field splits at its " / " back into the elapsed text and the total text, when the elapsed text has no '/' |
| PlaybackCard.DurationFieldInjective | src/commands.rs:128-132 | equal Duration fields have equal elapsed and equal total text |
| PlaybackCard.Render | src/commands.rs:120-149 | a present progress is required (the source unwraps it); the title is `Title` of the item's name and artists, the thumbnail its image; Shuffle is "On" when shuffle is on and "Off" when it is off; Repeat is the mode's name and reads back as that mode; Duration is the field of the progress and the item's duration, which splits back into both texts when the elapsed text has no '/' |
| CurrentCommand.Dispatch | src/commands.rs:84-118 | no session gives the unauthorised outcome; with a session, a failed query gives its error; no playback or no item gives "Nothing Playing"; otherwise one card rendered from the item and the playback state |
| CurrentCommand.Replies | src/commands.rs:86-116 | each outcome sends at most one message: the notice via reply, "Nothing Playing" via say, or one embed holding exactly the outcome's card, and nothing for a failed query; the embed count is 1 exactly for a card |
| CurrentCommand.CommandResult | src/commands.rs:96-117 | the command fails exactly when the playback query failed, with that error |
| CurrentCommand.CurrentSendsOneCardAtMost | src/commands.rs:86-116 | exactly one card is sent when session, playback and item are all present, none otherwise; without a session only the notice is sent |
| AuthFlow.Loop | src/commands.rs:53-79 | the loop either keeps the session slot or leaves a client in it; a failed run's error starts with "Failed to Authenticate:\n"; at most one code is exchanged per event |
| AuthFlow.BeforeFailure | src/commands.rs:53-69 | the events the loop processes form a prefix of the events with no failed exchange, and they stop just before the first failed one |
| AuthFlow.LoopSession | src/commands.rs:63-74 | the session slot ends up holding the client of the last successful exchange before any failure; with none it is unchanged |
| AuthFlow.LoopReplies | src/commands.rs:63-77 | the replies are, in order, "No Input provided" per dismissed form and "Successfully Authenticated!" per successful exchange, up to the first failed exchange |
| AuthFlow.LoopSessionNeedsSuccessReply | src/commands.rs:72-74 | the session slot differs from its start only if a success reply was sent |
| AuthFlow.LoopResult | src/commands.rs:53-79 | the command returns Ok exactly when no exchange failed, so the events ran out; otherwise its error is "Failed to Authenticate:\n" followed by a failed exchange's error |
| AuthFlow.LoopStopsAtFailure | src/commands.rs:66-69 | after a failed exchange no later event has any effect, and the run has failed |
| AuthFlow.RequestedCodesFitForm | src/commands.rs:16-18 | every code handed to the token exchange has between 64 and 512 characters |
| AuthFlow.LastTokenCons | src/commands.rs:74 | the last successful exchange of a list seen from its front: an earlier one counts only if no later one succeeds |
| AuthFlow.AuthenticatedAfterSuccess | src/commands.rs:63-74 | a run with a successful exchange before any failure leaves a session in the slot |
| Commands.Bot.Authenticate | src/commands.rs:23-80 | a set-up failure returns its error with nothing sent and the session unchanged; otherwise the prompt is sent, and the new session, the messages after the prompt and the result are those of `AuthFlow.Loop` over the events |
| Commands.Bot.Current | src/commands.rs:84-118 | the session is unchanged, the messages sent are the replies for `Dispatch`'s outcome, and the result is that outcome's command result |

## Left out

- Discord transport: `ctx.send`, `ctx.reply` and `ctx.say`, and the errors each can return through `?`. Only which kind of message is sent, and its text, is modelled. The errors `execute_modal_on_component_interaction` can return are left out too.
- The prompt's and the card's decoration: colours, static title, description and field texts, footer, button labels and timestamps. They are fixed text or clock readings.
- `ComponentInteractionCollector` and its 120-second timeout. These are timing and event delivery, replaced by a finite event sequence that ends. Out-of-bounds form input is refused by the chat client and never reaches the bot, so it is modelled as an event that changes nothing.
- The Spotify client: `spotify::init`, `get_authorize_url`, `request_token` and `current_playback`. These are network calls, and their answers are inputs. `init` stands for set-up plus the authorization URL. The `unwrap` on `get_authorize_url` is assumed to succeed.
- `Spotify.Client` holds only the token of its last exchange. The source stores a clone of the command's own client, which shares its token with earlier clones. That sharing is not modelled.
- The `RwLock` around the session slot, and holding its read guard across the query. This is about concurrency, so the slot is a single field.
- `StandardItem::parse` and `format_delta`: they are not part of this model. The playback state carries the already-parsed item, and the formatter is a function parameter.
- A missing `progress` on a reported item makes the source panic (`unwrap`, src/commands.rs:127). The model does not cover that panic: `PlaybackCard.Render` requires a progress, and `CurrentCommand.Dispatch` and `Commands.Bot.Current` require one whenever a session exists and an item is reported.
- `tracing` logs and the poise attributes (`owners_only`, `user_cooldown`). These are logging and framework configuration.
