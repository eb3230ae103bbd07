/**
 * The `authenticate` loop as a pure function over the events the button
 * collector delivers. The 120-second collector timeout is the end of the
 * event sequence. Each event is one press of the "Authenticate" button,
 * followed either by the form being dismissed or by a submitted code together
 * with what the provider's token exchange answers for it.
 */
module AuthFlow {
  import opened Wrappers
  import opened Spotify
  import opened Chat

  /** The bounds the code-entry form puts on the code (`min_length`, `max_length`). */
  const MinCodeLength := 64
  const MaxCodeLength := 512

  const NoInputText := "No Input provided"
  const SuccessText := "Successfully Authenticated!"
  const FailurePrefix := "Failed to Authenticate:\n"

  /**
   * The form lets a code through only within its bounds; the chat client
   * refuses to submit anything else, so the command never sees it.
   */
  predicate FormAccepts(code: string)
  {
    MinCodeLength <= |code| <= MaxCodeLength
  }

  datatype Event =
    | Dismissed                                          // the form closed without a value
    | Submitted(code: string, exchange: Result<Token, string>)  // a code, and the exchange's answer for it

  /** What a run of the loop leaves behind. */
  datatype Run = Run(
    session: Option<Client>,    // the shared session slot afterwards
    sent: seq<Message>,         // the replies sent, in order
    requested: seq<string>,     // the codes handed to the token exchange, in order
    result: Result<(), string>) // what the command returns

  /** An event whose code reaches the exchange and succeeds. */
  predicate Succeeds(e: Event)
  {
    e.Submitted? && FormAccepts(e.code) && e.exchange.Success?
  }

  /** An event whose code reaches the exchange and fails. */
  predicate Fails(e: Event)
  {
    e.Submitted? && FormAccepts(e.code) && e.exchange.Failure?
  }

  /** The loop, starting from session slot `session`, over the remaining `events`. */
  function Loop(session: Option<Client>, events: seq<Event>): (run: Run)
    ensures run.session == session || run.session.Some?
    ensures run.result.Failure? ==>
      |FailurePrefix| <= |run.result.error| && run.result.error[..|FailurePrefix|] == FailurePrefix
    ensures |run.requested| <= |events|
    decreases |events|
  {
    if events == [] then Run(session, [], [], Success(()))
    else match events[0]
      case Dismissed =>
        var rest := Loop(session, events[1..]);
        rest.(sent := [Reply(NoInputText)] + rest.sent)
      case Submitted(code, exchange) =>
        if !FormAccepts(code) then Loop(session, events[1..])
        else match exchange
          case Failure(e) => Run(session, [], [code], Failure(FailurePrefix + e))
          case Success(token) =>
            var rest := Loop(Some(Client(token)), events[1..]);
            rest.(sent := [Reply(SuccessText)] + rest.sent, requested := [code] + rest.requested)
  }

  /** The events the loop gets through before a failed exchange stops it. */
  function BeforeFailure(events: seq<Event>): (prefix: seq<Event>)
    ensures prefix <= events
    ensures forall i :: 0 <= i < |prefix| ==> !Fails(prefix[i])
    ensures |prefix| < |events| ==> Fails(events[|prefix|])
  {
    if events == [] then []
    else if Fails(events[0]) then []
    else [events[0]] + BeforeFailure(events[1..])
  }

  /** The token of the last successful exchange among `events`, if there is one. */
  function LastToken(events: seq<Event>): Option<Token>
  {
    if events == [] then None
    else if Succeeds(events[|events| - 1]) then Some(events[|events| - 1].exchange.value)
    else LastToken(events[..|events| - 1])
  }

  /** The session slot after the successful exchanges among `events`: the last one's client, or `session` if none. */
  function Installed(session: Option<Client>, events: seq<Event>): Option<Client>
  {
    match LastToken(events)
    case None => session
    case Some(token) => Some(Client(token))
  }

  /** The reply one processed event earns. */
  function Ack(e: Event): seq<Message>
  {
    match e
    case Dismissed => [Reply(NoInputText)]
    case Submitted(code, exchange) =>
      if FormAccepts(code) && exchange.Success? then [Reply(SuccessText)] else []
  }

  /** The replies a list of processed events earns, in order. */
  function Acks(events: seq<Event>): seq<Message>
  {
    if events == [] then [] else Ack(events[0]) + Acks(events[1..])
  }

  /** Looking at the last successful exchange from the front: an earlier event only counts if none follows. */
  lemma {:induction false} LastTokenCons(e: Event, rest: seq<Event>)
    ensures LastToken([e] + rest) ==
      if LastToken(rest).Some? then LastToken(rest)
      else if Succeeds(e) then Some(e.exchange.value)
      else None
    decreases |rest|
  {
    var all := [e] + rest;
    if rest == [] {
      assert all[..0] == [];
    } else {
      assert all[|all| - 1] == rest[|rest| - 1];
      if !Succeeds(rest[|rest| - 1]) {
        assert all[..|all| - 1] == [e] + rest[..|rest| - 1];
        LastTokenCons(e, rest[..|rest| - 1]);
      }
    }
  }

  /** A successful exchange anywhere among `events` leaves a last token. */
  lemma {:induction false} LastTokenFound(events: seq<Event>, i: nat)
    requires i < |events| && Succeeds(events[i])
    ensures LastToken(events).Some?
    decreases |events|
  {
    if !Succeeds(events[|events| - 1]) {
      assert i < |events| - 1;
      assert events[..|events| - 1][i] == events[i];
      LastTokenFound(events[..|events| - 1], i);
    }
  }

  /**
   * The session slot changes only through successful exchanges, and ends up
   * holding the client of the last one the loop got to; a run with none leaves
   * it as it was.
   */
  lemma {:induction false} LoopSession(session: Option<Client>, events: seq<Event>)
    ensures Loop(session, events).session == Installed(session, BeforeFailure(events))
    decreases |events|
  {
    if events != [] {
      var e, rest := events[0], events[1..];
      if !Fails(e) {
        assert BeforeFailure(events) == [e] + BeforeFailure(rest);
        LastTokenCons(e, BeforeFailure(rest));
        if Succeeds(e) {
          LoopSession(Some(Client(e.exchange.value)), rest);
        } else {
          LoopSession(session, rest);
        }
      }
    }
  }

  /** The replies are, in order, one per dismissed form and one per successful exchange before any failure. */
  lemma {:induction false} LoopReplies(session: Option<Client>, events: seq<Event>)
    ensures Loop(session, events).sent == Acks(BeforeFailure(events))
    decreases |events|
  {
    if events != [] {
      var e, rest := events[0], events[1..];
      if !Fails(e) {
        var prefix := BeforeFailure(events);
        assert prefix == [e] + BeforeFailure(rest);
        assert prefix[0] == e && prefix[1..] == BeforeFailure(rest);
        if Succeeds(e) {
          LoopReplies(Some(Client(e.exchange.value)), rest);
        } else {
          LoopReplies(session, rest);
        }
      }
    }
  }

  /** The session slot only differs from its start after a success reply was sent. */
  lemma {:induction false} LoopSessionNeedsSuccessReply(session: Option<Client>, events: seq<Event>)
    ensures Loop(session, events).session == session || Reply(SuccessText) in Loop(session, events).sent
    decreases |events|
  {
    if events != [] {
      var e, rest := events[0], events[1..];
      match e
      case Dismissed =>
        LoopSessionNeedsSuccessReply(session, rest);
      case Submitted(code, exchange) =>
        if !FormAccepts(code) {
          LoopSessionNeedsSuccessReply(session, rest);
        } else if exchange.Success? {
          assert Loop(session, events).sent[0] == Reply(SuccessText);
        }
    }
  }

  /**
   * The command returns success exactly when no exchange failed, that is when
   * the events ran out; otherwise it returns the failed exchange's error behind
   * "Failed to Authenticate:\n".
   */
  lemma {:induction false} LoopResult(session: Option<Client>, events: seq<Event>)
    ensures Loop(session, events).result.Success? <==> forall i :: 0 <= i < |events| ==> !Fails(events[i])
    ensures Loop(session, events).result.Success? ==> Loop(session, events).result == Success(())
    ensures Loop(session, events).result.Failure? ==>
      exists i :: 0 <= i < |events| && Fails(events[i]) &&
        Loop(session, events).result.error == FailurePrefix + events[i].exchange.error
    decreases |events|
  {
    if events != [] {
      var e, rest := events[0], events[1..];
      if Fails(e) {
        assert Fails(events[0]);
      } else {
        var next := if Succeeds(e) then Some(Client(e.exchange.value)) else session;
        assert Loop(session, events).result == Loop(next, rest).result;
        LoopResult(next, rest);
        if Loop(next, rest).result.Success? {
          forall i | 0 <= i < |events|
            ensures !Fails(events[i])
          {
            if i > 0 { assert events[i] == rest[i - 1]; }
          }
        } else {
          var j :| 0 <= j < |rest| && Fails(rest[j]) &&
            Loop(next, rest).result.error == FailurePrefix + rest[j].exchange.error;
          assert events[j + 1] == rest[j];
        }
      }
    }
  }

  /** After a failed exchange the loop has stopped: later events change nothing. */
  lemma {:induction false} LoopStopsAtFailure(session: Option<Client>, prefix: seq<Event>, e: Event, later: seq<Event>)
    requires Fails(e)
    ensures Loop(session, prefix + [e] + later) == Loop(session, prefix + [e])
    ensures Loop(session, prefix + [e]).result.Failure?
    decreases |prefix|
  {
    if prefix == [] {
      assert ([e] + later)[1..] == later;
    } else {
      var first := prefix[0];
      assert (prefix + [e] + later)[1..] == prefix[1..] + [e] + later;
      assert (prefix + [e])[1..] == prefix[1..] + [e];
      if !Fails(first) {
        var next := if Succeeds(first) then Some(Client(first.exchange.value)) else session;
        LoopStopsAtFailure(next, prefix[1..], e, later);
      }
    }
  }

  /** Every code handed to the token exchange is within the form's bounds. */
  lemma {:induction false} RequestedCodesFitForm(session: Option<Client>, events: seq<Event>)
    ensures forall c :: c in Loop(session, events).requested ==> FormAccepts(c)
    decreases |events|
  {
    if events != [] {
      var e, rest := events[0], events[1..];
      if !Fails(e) {
        var next := if Succeeds(e) then Some(Client(e.exchange.value)) else session;
        RequestedCodesFitForm(next, rest);
      }
    }
  }

  /** A run in which some exchange succeeded before any failed leaves a session in the slot. */
  lemma AuthenticatedAfterSuccess(session: Option<Client>, events: seq<Event>, i: nat)
    requires i < |BeforeFailure(events)| && Succeeds(BeforeFailure(events)[i])
    ensures Loop(session, events).session.Some?
  {
    LastTokenFound(BeforeFailure(events), i);
    LoopSession(session, events);
  }
}
