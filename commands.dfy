/**
 * The bot's shared state and its two commands. `session` is the process-wide
 * session slot (a lock-guarded `Option` in the source; the lock is not
 * modelled); `sent` is the log of messages the commands have sent.
 */
module Commands {
  import opened Wrappers
  import opened Spotify
  import opened Chat
  import opened CurrentCommand
  import opened AuthFlow

  class Bot {
    var session: Option<Client>
    var sent: seq<Message>

    /** A fresh bot: no session yet, nothing sent. */
    constructor ()
      ensures session == None && sent == []
    {
      session := None;
      sent := [];
    }

    /**
     * `authenticate`. `init` is the client set-up's answer: the authorization
     * URL, or the set-up error. On success the prompt is sent and the loop runs
     * over `events`, replying to each, installing the client after each
     * successful exchange, and stopping at the first failed one.
     */
    method Authenticate(init: Result<string, string>, events: seq<Event>) returns (r: Result<(), string>)
      modifies this
      ensures init.Failure? ==> r == Failure(init.error) && session == old(session) && sent == old(sent)
      ensures init.Success? ==>
        var run := Loop(old(session), events);
        session == run.session && sent == old(sent) + [Prompt(init.value)] + run.sent && r == run.result
    {
      if init.Failure? {
        return Failure(init.error);
      }
      sent := sent + [Prompt(init.value)];
      ghost var before := sent;
      ghost var run := Loop(session, events);
      var i := 0;
      while i < |events|
        invariant 0 <= i <= |events|
        invariant |before| <= |sent| && sent[..|before|] == before
        invariant run.session == Loop(session, events[i..]).session
        invariant run.result == Loop(session, events[i..]).result
        invariant run.sent == sent[|before|..] + Loop(session, events[i..]).sent
      {
        assert events[i..][0] == events[i] && events[i..][1..] == events[i + 1..];
        match events[i] {
          case Dismissed =>
            sent := sent + [Reply(NoInputText)];
          case Submitted(code, exchange) =>
            if FormAccepts(code) {
              match exchange {
                case Failure(e) =>
                  return Failure(FailurePrefix + e);
                case Success(token) =>
                  sent := sent + [Reply(SuccessText)];
                  session := Some(Client(token));
              }
            }
        }
        i := i + 1;
      }
      assert events[i..] == [];
      r := Success(());
    }

    /**
     * `current`: reads the session slot, sends the one message the outcome
     * calls for, and returns the query's error if it failed.
     */
    method Current(fetch: Fetch, formatDelta: Delta -> string) returns (r: Result<(), string>)
      requires session.Some? ==> ProgressKnown(fetch)
      modifies this
      ensures session == old(session)
      ensures sent == old(sent) + Replies(Dispatch(session, fetch, formatDelta))
      ensures r == CommandResult(Dispatch(session, fetch, formatDelta))
    {
      var outcome := Dispatch(session, fetch, formatDelta);
      sent := sent + Replies(outcome);
      r := CommandResult(outcome);
    }
  }

  /**
   * A run of `authenticate` in which a code is exchanged successfully, followed
   * by `current`: the second command finds the session and never answers with
   * the "not authenticated" notice.
   */
  method AuthenticateThenCurrent(url: string, token: Token, fetch: Fetch, formatDelta: Delta -> string)
    requires ProgressKnown(fetch)
  {
    var bot := new Bot();
    var code := seq(70, _ => 'c');
    var events := [Dismissed, Submitted(code, Success(token))];
    assert events[1..] == [Submitted(code, Success(token))] && events[1..][1..] == [];
    assert FormAccepts(code);
    assert Loop(Some(Client(token)), []) == Run(Some(Client(token)), [], [], Success(()));
    assert Loop(None, events[1..]) == Run(Some(Client(token)), [Reply(SuccessText)], [code], Success(()));
    assert Loop(None, events) == Run(Some(Client(token)), [Reply(NoInputText), Reply(SuccessText)], [code], Success(()));
    var r := bot.Authenticate(Success(url), events);
    assert r == Success(());
    assert bot.session == Some(Client(token));
    assert bot.sent == [Prompt(url), Reply(NoInputText), Reply(SuccessText)];
    var q := bot.Current(fetch, formatDelta);
    assert Reply(UnauthorizedNotice) !in bot.sent[3..];
  }
}
