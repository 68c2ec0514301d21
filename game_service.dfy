/**
 * The client's connection object (services/gameService.ts): class
 * GameService with its socket and its reconnect counter. The socket is
 * abstracted to its `readyState`; `ws` being absent is `this.ws === null`.
 * Socket events (open, close, message) are methods the browser calls. A
 * scheduled reconnect, a frame written to the socket and a message handed
 * to the `onMessage` callback are returned as values.
 */
module Connection {
  import opened Wrappers
  import opened GameTypes

  datatype ReadyState = Connecting | Open | Closing | Closed

  const MaxReconnectAttempts: nat := 5
  const ReconnectIntervalMs: nat := 3000
  /** The WebSocket close code of a normal closure. */
  const NormalClosure: int := 1000

  const ParseFailedText: string := "受信メッセージのパースに失敗しました。"
  const ReconnectFailedText: string := "サーバーへの再接続に失敗しました。"
  const NotConnectedText: string := "サーバーに接続されていません。"

  /** What the `onclose` handler decides after `ws` is cleared. */
  datatype CloseDecision =
    | ScheduleReconnect  // one more attempt, after ReconnectIntervalMs
    | GiveUp             // report the failure to onMessage
    | StayClosed         // a normal closure below the limit: nothing more

  /** The decision for a close with `code` when `attempts` reconnects have been made. */
  function DecideOnClose(code: int, attempts: nat): (d: CloseDecision)
    ensures d == ScheduleReconnect <==> code != NormalClosure && attempts < MaxReconnectAttempts
    ensures d == GiveUp <==> attempts >= MaxReconnectAttempts
    ensures d == StayClosed <==> code == NormalClosure && attempts < MaxReconnectAttempts
  {
    if code != NormalClosure && attempts < MaxReconnectAttempts then ScheduleReconnect
    else if attempts >= MaxReconnectAttempts then GiveUp
    else StayClosed
  }

  /** The counter after a close with decision `d`. */
  function AttemptsAfter(attempts: nat, d: CloseDecision): (n: nat) {
    if d == ScheduleReconnect then attempts + 1 else attempts
  }

  /**
   * The reconnects scheduled by a run of closes with the given codes and no
   * successful open in between (an open resets the counter).
   */
  function ReconnectsScheduled(attempts: nat, codes: seq<int>): (n: nat)
    decreases |codes|
  {
    if codes == [] then 0
    else
      var d := DecideOnClose(codes[0], attempts);
      (if d == ScheduleReconnect then 1 else 0) + ReconnectsScheduled(AttemptsAfter(attempts, d), codes[1..])
  }

  /** The counter at the end of such a run. */
  function AttemptsAfterCloses(attempts: nat, codes: seq<int>): (n: nat)
    decreases |codes|
  {
    if codes == [] then attempts
    else AttemptsAfterCloses(AttemptsAfter(attempts, DecideOnClose(codes[0], attempts)), codes[1..])
  }

  /**
   * The retry bound: without an open in between, closes schedule at most
   * MaxReconnectAttempts - attempts reconnects, and the counter never
   * passes the maximum.
   */
  lemma {:induction false} RetriesAreBounded(attempts: nat, codes: seq<int>)
    requires attempts <= MaxReconnectAttempts
    ensures AttemptsAfterCloses(attempts, codes) <= MaxReconnectAttempts
    ensures ReconnectsScheduled(attempts, codes) == AttemptsAfterCloses(attempts, codes) - attempts
    decreases |codes|
  {
    if codes != [] {
      var d := DecideOnClose(codes[0], attempts);
      RetriesAreBounded(AttemptsAfter(attempts, d), codes[1..]);
    }
  }

  /** Abnormal closes use up the attempts one by one; from then on every close gives up. */
  lemma {:induction false} AbnormalClosesExhaust(attempts: nat, codes: seq<int>)
    requires attempts <= MaxReconnectAttempts
    requires forall i :: 0 <= i < |codes| ==> codes[i] != NormalClosure
    requires |codes| >= MaxReconnectAttempts - attempts
    ensures AttemptsAfterCloses(attempts, codes) == MaxReconnectAttempts
    ensures forall code :: DecideOnClose(code, AttemptsAfterCloses(attempts, codes)) == GiveUp
    decreases |codes|
  {
    if codes != [] {
      var d := DecideOnClose(codes[0], attempts);
      AbnormalClosesExhaust(AttemptsAfter(attempts, d), codes[1..]);
    }
  }

  /** What `sendMessage` does. */
  datatype SendResult =
    | Sent(frame: ClientMessage)            // `ws.send(JSON.stringify(message))`
    | Undeliverable(notice: ServerMessage)  // handed to onMessage instead

  /** `sendMessage` writes the frame exactly when the socket is OPEN, and reports an error otherwise. */
  predicate SendsWhenOpen(ws: Option<ReadyState>, message: ClientMessage, r: SendResult) {
    if ws == Some(Open) then r == Sent(message) else r == Undeliverable(ErrorMessage(NotConnectedText))
  }

  /** A frame from the server, as `ws.onmessage` sees it after `JSON.parse`. */
  datatype Frame = Parsed(message: ServerMessage) | Unparsable

  /** `ws.onmessage`: the message handed to onMessage. An unparsable frame becomes an error. */
  function Deliver(frame: Frame): (m: ServerMessage)
    ensures frame.Parsed? ==> m == frame.message
    ensures frame.Unparsable? ==> m == ErrorMessage(ParseFailedText)
  {
    match frame
    case Parsed(message) => message
    case Unparsable => ErrorMessage(ParseFailedText)
  }

  class GameService {
    var url: string
    var ws: Option<ReadyState>
    var reconnectAttempts: nat

    ghost predicate Valid()
      reads this
    {
      reconnectAttempts <= MaxReconnectAttempts
    }

    /** The constructor connects at once. */
    constructor (url: string)
      ensures Valid()
      ensures this.url == url && ws == Some(Connecting) && reconnectAttempts == 0
    {
      this.url := url;
      reconnectAttempts := 0;
      ws := Some(Connecting);
    }

    /** `connect`: a new socket unless the current one is OPEN or CONNECTING. */
    method Connect() returns (created: bool)
      requires Valid()
      modifies this
      ensures Valid()
      ensures created <==> old(ws) != Some(Open) && old(ws) != Some(Connecting)
      ensures ws == (if created then Some(Connecting) else old(ws))
      ensures reconnectAttempts == old(reconnectAttempts) && url == old(url)
    {
      if ws == Some(Open) || ws == Some(Connecting) {
        created := false;
        return;
      }
      ws := Some(Connecting);
      created := true;
    }

    /** The socket opened (the only event a CONNECTING socket can reach OPEN by), then `onopen` ran. */
    method HandleOpen()
      requires Valid()
      requires ws == Some(Connecting)
      modifies this
      ensures Valid()
      ensures ws == Some(Open) && reconnectAttempts == 0 && url == old(url)
    {
      ws := Some(Open);
      reconnectAttempts := 0;
    }

    /**
     * `onclose` with the close event's `code`: `ws` is cleared, then the
     * decision is taken. `reconnectAfterMs` is the delay of the scheduled
     * reconnect, if one was scheduled; `notice` is what was handed to onMessage.
     */
    method HandleClose(code: int) returns (reconnectAfterMs: Option<nat>, notice: Option<ServerMessage>)
      requires Valid()
      modifies this
      ensures Valid()
      ensures ws == None && url == old(url)
      ensures reconnectAfterMs == (if DecideOnClose(code, old(reconnectAttempts)) == ScheduleReconnect
                                   then Some(ReconnectIntervalMs) else None)
      ensures reconnectAttempts == AttemptsAfter(old(reconnectAttempts), DecideOnClose(code, old(reconnectAttempts)))
      ensures notice == (if old(reconnectAttempts) >= MaxReconnectAttempts
                         then Some(ErrorMessage(ReconnectFailedText)) else None)
    {
      ws := None;
      reconnectAfterMs := None;
      notice := None;
      if code != NormalClosure && reconnectAttempts < MaxReconnectAttempts {
        reconnectAttempts := reconnectAttempts + 1;
        reconnectAfterMs := Some(ReconnectIntervalMs);
      } else if reconnectAttempts >= MaxReconnectAttempts {
        notice := Some(ErrorMessage(ReconnectFailedText));
      }
    }

    /**
     * `close`: a normal closure is requested only from OPEN, which moves
     * the socket to CLOSING; its close event (code 1000) comes later.
     */
    method Close() returns (requested: bool)
      requires Valid()
      modifies this
      ensures Valid()
      ensures requested <==> old(ws) == Some(Open)
      ensures ws == (if requested then Some(Closing) else old(ws))
      ensures reconnectAttempts == old(reconnectAttempts) && url == old(url)
    {
      requested := ws == Some(Open);
      if requested {
        ws := Some(Closing);
      }
    }

    /** `sendMessage`. */
    method SendMessage(message: ClientMessage) returns (r: SendResult)
      ensures SendsWhenOpen(ws, message, r)
    {
      if ws == Some(Open) {
        r := Sent(message);
      } else {
        r := Undeliverable(ErrorMessage(NotConnectedText));
      }
    }

    method JoinGame(playerName: string) returns (r: SendResult)
      ensures SendsWhenOpen(ws, ClientMessage.JoinGame(playerName), r)
    {
      r := SendMessage(ClientMessage.JoinGame(playerName));
    }

    method StartGame() returns (r: SendResult)
      ensures SendsWhenOpen(ws, ClientMessage.StartGame, r)
    {
      r := SendMessage(ClientMessage.StartGame);
    }

    method StartNextRound() returns (r: SendResult)
      ensures SendsWhenOpen(ws, NextRound, r)
    {
      r := SendMessage(NextRound);
    }

    method SelectHandShape(sessionId: string, playerId: string, handShape: HandShape) returns (r: SendResult)
      ensures SendsWhenOpen(ws, ClientMessage.SelectHandShape(sessionId, playerId, handShape), r)
    {
      r := SendMessage(ClientMessage.SelectHandShape(sessionId, playerId, handShape));
    }
  }

  /**
   * The reconnect cycle: a socket that never opens is retried five times
   * three seconds apart; the sixth failure reports the error and stops.
   */
  method ServerUnreachable(url: string)
  {
    var service := new GameService(url);
    var i := 0;
    while i < MaxReconnectAttempts
      invariant 0 <= i <= MaxReconnectAttempts
      invariant service.Valid() && service.ws == Some(Connecting)
      invariant service.reconnectAttempts == i
    {
      var reconnect, notice := service.HandleClose(1006);
      assert reconnect == Some(3000) && notice.None?;
      var created := service.Connect();
      assert created;
      i := i + 1;
    }
    var reconnect, notice := service.HandleClose(1006);
    assert reconnect.None? && notice == Some(ErrorMessage(ReconnectFailedText));
  }
}
