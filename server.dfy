/**
 * The message handler of server.ts: one shared lobby held in module-level
 * state, an insertion-ordered roster (the `players` Map) and an optional
 * session. Random ids come in as parameters. A broadcast or a reply is
 * returned as a value; delivering it over the sockets is not modelled.
 */
module Server {
  import opened Wrappers
  import opened GameTypes

  /** What handling one message sends. */
  datatype Outbound =
    | Broadcast(message: ServerMessage)  // to every open client
    | Reply(message: ServerMessage)      // to the sender only
    | Silent

  /** A frame as the handler sees it after `JSON.parse`. */
  datatype Inbound =
    | Malformed                     // JSON.parse (or reading `type`) threw
    | Decoded(message: ClientMessage)
    | UnknownType(kind: string)     // any other `type` tag

  const InvalidFormatText: string := "Invalid message format"

  /** The roster after `players.set(playerId, newPlayer)` for a fresh id. */
  function AddPlayer(roster: seq<Player>, playerId: string, playerName: string): (r: seq<Player>)
    ensures |r| == |roster| + 1 && r[..|roster|] == roster
    ensures r[|roster|].id == playerId && r[|roster|].name == playerName && r[|roster|].score == 0
    ensures r[|roster|].isHost <==> roster == []
  {
    roster + [Player(playerId, playerName, 0, None, roster == [], None)]
  }

  /** No two roster entries share an id (the Map's keys). */
  ghost predicate DistinctPlayerIds(roster: seq<Player>) {
    forall i, j :: 0 <= i < j < |roster| ==> roster[i].id != roster[j].id
  }

  /** The first joiner is host and nobody else is. */
  ghost predicate OnlyFirstIsHost(roster: seq<Player>) {
    (|roster| > 0 ==> roster[0].isHost) &&
    forall i :: 0 < i < |roster| ==> !roster[i].isHost
  }

  /** The number of roster entries with the host flag. */
  function HostCount(roster: seq<Player>): (n: nat) {
    if roster == [] then 0 else (if roster[0].isHost then 1 else 0) + HostCount(roster[1..])
  }

  lemma {:induction false} NoHostCount(roster: seq<Player>)
    requires forall i :: 0 <= i < |roster| ==> !roster[i].isHost
    ensures HostCount(roster) == 0
  {
    if roster != [] {
      NoHostCount(roster[1..]);
    }
  }

  /** With only the first joiner flagged, a non-empty roster has exactly one host. */
  lemma OneHost(roster: seq<Player>)
    requires OnlyFirstIsHost(roster)
    ensures HostCount(roster) == if roster == [] then 0 else 1
  {
    if roster != [] {
      NoHostCount(roster[1..]);
    }
  }

  /** A join of a fresh id keeps the roster's ids distinct and its host unique. */
  lemma AddPlayerKeepsOneHost(roster: seq<Player>, playerId: string, playerName: string)
    requires DistinctPlayerIds(roster) && OnlyFirstIsHost(roster)
    requires forall p :: p in roster ==> p.id != playerId
    ensures DistinctPlayerIds(AddPlayer(roster, playerId, playerName))
    ensures OnlyFirstIsHost(AddPlayer(roster, playerId, playerName))
    ensures HostCount(AddPlayer(roster, playerId, playerName)) == 1
  {
    var r := AddPlayer(roster, playerId, playerName);
    forall i, j | 0 <= i < j < |r| ensures r[i].id != r[j].id {
      if j == |roster| { assert r[i] == roster[i]; }
      else { assert r[i] == roster[i] && r[j] == roster[j]; }
    }
    forall i | 0 < i < |r| ensures !r[i].isHost {
      if i < |roster| { assert r[i] == roster[i]; }
    }
    if roster != [] { assert r[0] == roster[0]; }
    OneHost(r);
  }

  /** The session literal built on the first join (it leaves out `totalRounds`). */
  function NewSession(sessionId: string, roster: seq<Player>, hostId: string): (s: GameSession) {
    GameSession(sessionId, roster, WaitingForPlayers, None, 1, [], map[], hostId, None, None)
  }

  /** What the server's state always satisfies between messages. */
  ghost predicate SessionAgrees(s: GameSession, roster: seq<Player>)
    requires roster != []
  {
    && s.players == roster
    && s.hostId == roster[0].id
    && (s.state == WaitingForPlayers || s.state == Playing)
    && s.currentRound == 1
    && s.roundResults == []
    && s.playerScores == map[]
    && s.currentPrompt.None?
  }

  class Lobby {
    /** The `players` Map's values in insertion order. */
    var players: seq<Player>
    var gameSession: Option<GameSession>

    ghost predicate Valid()
      reads this
    {
      && DistinctPlayerIds(players)
      && OnlyFirstIsHost(players)
      && (gameSession.None? <==> players == [])
      && (gameSession.Some? ==> SessionAgrees(gameSession.value, players))
    }

    /** Between messages, a lobby with players has exactly one host: the first joiner. */
    lemma ExactlyOneHost()
      requires Valid()
      ensures players != [] ==> HostCount(players) == 1 && players[0].isHost
      ensures gameSession.Some? ==> gameSession.value.hostId == players[0].id
    {
      OneHost(players);
    }

    /** The state when the server starts: nobody has joined. */
    constructor ()
      ensures Valid()
      ensures players == [] && gameSession == None
    {
      players := [];
      gameSession := None;
    }

    /** The `joinGame` branch. `playerId` and `sessionId` are the freshly generated ids. */
    method Join(playerId: string, playerName: string, sessionId: string) returns (out: Outbound)
      requires Valid()
      requires forall p :: p in players ==> p.id != playerId
      modifies this
      ensures Valid()
      ensures players == AddPlayer(old(players), playerId, playerName)
      ensures HostCount(players) == 1
      ensures old(gameSession).None? ==> gameSession == Some(NewSession(sessionId, players, playerId))
      ensures old(gameSession).Some? ==>
        gameSession == Some(old(gameSession).value.(players := players))
      ensures old(gameSession).Some? ==>
        && gameSession.value.id == old(gameSession).value.id
        && gameSession.value.state == old(gameSession).value.state
        && gameSession.value.hostId == old(gameSession).value.hostId
      ensures out == Broadcast(PlayerJoined(players[|old(players)|], old(players) == [], playerId, gameSession.value))
    {
      var isFirstPlayer := |players| == 0;
      var newPlayer := Player(playerId, playerName, 0, None, isFirstPlayer, None);
      AddPlayerKeepsOneHost(players, playerId, playerName);
      players := players + [newPlayer];
      if gameSession.None? {
        gameSession := Some(NewSession(sessionId, players, playerId));
      } else {
        gameSession := Some(gameSession.value.(players := players));
      }
      out := Broadcast(PlayerJoined(newPlayer, isFirstPlayer, playerId, gameSession.value));
    }

    /** The `startGame` branch: no host check, and no prompt is chosen. */
    method Start() returns (out: Outbound)
      requires Valid()
      modifies this
      ensures Valid()
      ensures players == old(players)
      ensures old(gameSession).None? ==> gameSession == None && out == Silent
      ensures old(gameSession).Some? ==>
        && gameSession == Some(old(gameSession).value.(state := Playing, currentRound := 1))
        && out == Broadcast(GameStart(gameSession.value))
    {
      if gameSession.Some? {
        gameSession := Some(gameSession.value.(state := Playing, currentRound := 1));
        out := Broadcast(GameStart(gameSession.value));
      } else {
        out := Silent;
      }
    }

    /** The `catch` branch: an error to the sender only. */
    method HandleMalformed() returns (out: Outbound)
      ensures out == Reply(ErrorMessage(InvalidFormatText))
    {
      out := Reply(ErrorMessage(InvalidFormatText));
    }

    /** The `default` branch, which also takes `selectHandShape` and `nextRound`. */
    method HandleUnknown(kind: string) returns (out: Outbound)
      ensures out == Silent
    {
      out := Silent;
    }

    /** The `close` handler: nobody is removed from the roster. */
    method Disconnect()
      requires Valid()
      ensures Valid()
      ensures players == old(players) && gameSession == old(gameSession)
    {
    }

    /** One inbound frame, dispatched on its `type` tag. */
    method HandleMessage(input: Inbound, playerId: string, sessionId: string) returns (out: Outbound)
      requires Valid()
      requires input.Decoded? && input.message.JoinGame? ==> forall p :: p in players ==> p.id != playerId
      modifies this
      ensures Valid()
      ensures input.Decoded? && input.message.JoinGame? ==>
        && players == AddPlayer(old(players), playerId, input.message.playerName)
        && gameSession == Some(if old(gameSession).None? then NewSession(sessionId, players, playerId)
                               else old(gameSession).value.(players := players))
        && out == Broadcast(PlayerJoined(players[|old(players)|], old(players) == [], playerId, gameSession.value))
      ensures input == Decoded(StartGame) ==>
        && players == old(players)
        && (old(gameSession).None? ==> gameSession == None && out == Silent)
        && (old(gameSession).Some? ==>
              && gameSession == Some(old(gameSession).value.(state := Playing, currentRound := 1))
              && out == Broadcast(GameStart(gameSession.value)))
      ensures input.Malformed? ==>
        out == Reply(ErrorMessage(InvalidFormatText)) &&
        players == old(players) && gameSession == old(gameSession)
      ensures (input.UnknownType? || input == Decoded(NextRound) ||
               (input.Decoded? && input.message.SelectHandShape?)) ==>
        out == Silent && players == old(players) && gameSession == old(gameSession)
    {
      match input {
        case Malformed =>
          out := HandleMalformed();
        case UnknownType(kind) =>
          out := HandleUnknown(kind);
        case Decoded(m) =>
          match m {
            case JoinGame(name) =>
              out := Join(playerId, name, sessionId);
            case StartGame =>
              out := Start();
            case NextRound =>
              out := HandleUnknown("nextRound");
            case SelectHandShape(_, _, _) =>
              out := HandleUnknown("selectHandShape");
          }
      }
    }
  }

  /**
   * The lobby scenario: a host who joins alone is the only player, is host,
   * and after `startGame` the session is playing round 1.
   */
  method HostJoinsAloneAndStarts(hostId: string, name: string, sessionId: string)
  {
    var lobby := new Lobby();
    var joined := lobby.Join(hostId, name, sessionId);
    assert joined.message.isHost;
    assert lobby.players == [Player(hostId, name, 0, None, true, None)];
    assert lobby.gameSession.value.state == WaitingForPlayers;
    var started := lobby.Start();
    assert lobby.gameSession.value.state == Playing && lobby.gameSession.value.currentRound == 1;
    assert lobby.gameSession.value.hostId == hostId;
    assert started == Broadcast(GameStart(lobby.gameSession.value));
  }
}
