/**
 * The value types shared by the server and the client (types.ts): players,
 * prompts, sessions, round results, and the tagged messages of the wire
 * protocol. Optional fields of the TypeScript interfaces are `Option`s.
 */
module GameTypes {
  import opened Wrappers

  datatype HandShape = Guu | Choki | Paa

  /** One challenge of the prompt catalog. */
  datatype PromptItem = PromptItem(
    id: string,
    shape1: HandShape,
    shape2: HandShape,
    objectToMake: string,
    objectToMakeEn: string,
    fullText: string)

  /** The client's own screen phase (enum GameState). */
  datatype GameState =
    | Idle | Intro | ShowingPrompt | Countdown | Capturing | Scoring | ShowingResult | Error

  datatype ScoreData = ScoreData(points: int, feedback: string)

  datatype Player = Player(
    id: string,
    name: string,
    score: int,
    currentHandShape: Option<HandShape>,
    isHost: bool,
    hasSelected: Option<bool>)

  datatype PlayerResult = PlayerResult(
    playerId: string,
    playerName: string,
    handShape: Option<HandShape>,
    score: int,
    feedback: Option<string>,
    rank: int)

  datatype LeaderboardEntry = LeaderboardEntry(
    playerId: string,
    playerName: string,
    totalScore: int,
    rank: int)

  datatype RoundResult = RoundResult(
    round: int,
    prompt: PromptItem,
    playerResults: seq<PlayerResult>,
    leaderboard: seq<LeaderboardEntry>)

  /** The session phase as it travels on the wire. */
  datatype SessionState = WaitingForPlayers | Lobby | Playing | RoundEnd | GameEnd

  /**
   * A session snapshot. `totalRounds` and `finalLeaderboard` are optional
   * here because the server's session literal leaves them out.
   */
  datatype GameSession = GameSession(
    id: string,
    players: seq<Player>,
    state: SessionState,
    currentPrompt: Option<PromptItem>,
    currentRound: int,
    roundResults: seq<RoundResult>,
    playerScores: map<string, int>,
    hostId: string,
    totalRounds: Option<int>,
    finalLeaderboard: Option<seq<LeaderboardEntry>>)

  /** Messages a client sends to the server. */
  datatype ClientMessage =
    | JoinGame(playerName: string)
    | StartGame
    | NextRound
    | SelectHandShape(sessionId: string, playerId: string, handShape: HandShape)

  /** Messages a client receives, whether from the server or from its own connection layer. */
  datatype ServerMessage =
    | GameUpdate(session: GameSession)
    | PlayerJoined(player: Player, isHost: bool, playerId: string, session: GameSession)
    | NewPlayerJoined(newPlayer: Player, session: GameSession)
    | GameStart(session: GameSession)
    | RoundEnd(session: GameSession)
    | GameEnd(session: GameSession)
    | ErrorMessage(message: string)
    | PlayerLeft(playerId: string, session: GameSession)
    | UnknownKind(kind: string)
}
