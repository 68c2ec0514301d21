/**
 * The client logic of App.tsx that is not rendering: the intro effect's
 * prompt choice, the `onMessage` reducer that applies server messages to the client's state,
 * the connection callbacks, and the guards of the join and start buttons.
 *
 * React state is one `ClientState` record. A handler calls several setters;
 * each sets a different field and they commit together, so a handler is a
 * transition from one record to the next. The state a handler reads is
 * passed in explicitly.
 */
module App {
  import opened Wrappers
  import opened GameTypes
  import opened Catalog
  import opened PromptSelector

  // ---------------------------------------------------------------------
  // Client state
  // ---------------------------------------------------------------------

  datatype ClientState = ClientState(
    gameState: GameState,
    currentPrompt: Option<PromptItem>,
    usedPrompts: set<string>,
    gameSession: Option<GameSession>,
    playerName: string,
    isConnected: bool,
    isHost: bool,
    playerId: Option<string>,
    playerList: seq<Player>,
    currentRound: int,
    roundResults: seq<RoundResult>,
    multiplayerErrorMessage: Option<string>)

  /** The state of a freshly mounted App. */
  const Initial: ClientState := ClientState(
    Idle, None, {}, None, "", false, false, None, [], 0, [], None)

  const DisconnectedText: string := "サーバーとの接続が切れました。"
  const EnterNameText: string := "プレイヤー名を入力してください。"
  const NotAllowedToStartText: string := "ゲームを開始する権限がありません。"

  /** JavaScript truthiness of an optional string: present and non-empty. */
  predicate Truthy(s: Option<string>) {
    s.Some? && s.value != ""
  }

  /** The player list shown is the known session's roster, or empty when no session is known. */
  predicate Coherent(st: ClientState) {
    if st.gameSession.Some? then st.playerList == st.gameSession.value.players else st.playerList == []
  }

  /** A freshly mounted App starts out coherent: no session and an empty player list. */
  lemma InitialIsCoherent()
    ensures Coherent(Initial)
  {
  }

  // ---------------------------------------------------------------------
  // The intro effect's prompt choice
  // ---------------------------------------------------------------------

  /**
   * The prompt part of the intro effect: in INTRO with no prompt yet, take
   * the session's prompt if it carries one, otherwise select one locally.
   * Moving on to SHOWING_PROMPT is left to a timer and not modelled.
   */
  function IntroPromptEffect(st: ClientState, randomIndex: nat): (r: ClientState)
    requires randomIndex < |Candidates(PROMPTS, st.usedPrompts)|
    ensures st.gameState != Intro || st.currentPrompt.Some? ==> r == st
    ensures st.gameState == Intro && st.currentPrompt.None? ==> r.currentPrompt.Some?
    ensures st.gameState == Intro && st.currentPrompt.None? &&
            st.gameSession.Some? && st.gameSession.value.currentPrompt.Some? ==>
      r == st.(currentPrompt := st.gameSession.value.currentPrompt)
  {
    if st.gameState == Intro && st.currentPrompt.None? then
      if st.gameSession.Some? && st.gameSession.value.currentPrompt.Some? then
        st.(currentPrompt := st.gameSession.value.currentPrompt)
      else if st.gameSession.None? || st.gameSession.value.state == WaitingForPlayers ||
              st.gameSession.value.state == Lobby || st.gameSession.value.currentPrompt.None? then
        var s := SelectPrompt(PROMPTS, st.usedPrompts, randomIndex);
        st.(currentPrompt := Some(s.prompt), usedPrompts := s.used)
      else
        st
    else
      st
  }

  /**
   * Without a session prompt, INTRO settles on a catalog prompt that was
   * unused before (unless every prompt was), now recorded as used; only the
   * prompt and the used set change.
   */
  lemma IntroSelectsLocally(st: ClientState, randomIndex: nat)
    requires st.gameState == Intro && st.currentPrompt.None?
    requires st.gameSession.None? || st.gameSession.value.currentPrompt.None?
    requires randomIndex < |Candidates(PROMPTS, st.usedPrompts)|
    ensures var r := IntroPromptEffect(st, randomIndex);
      && r.(currentPrompt := None, usedPrompts := {}) == st.(currentPrompt := None, usedPrompts := {})
      && r.currentPrompt.Some? && r.currentPrompt.value in PROMPTS
      && r.currentPrompt.value.id in r.usedPrompts
      && (Unused(PROMPTS, st.usedPrompts) != [] ==>
            r.currentPrompt.value.id !in st.usedPrompts &&
            r.usedPrompts == st.usedPrompts + {r.currentPrompt.value.id})
      && (Unused(PROMPTS, st.usedPrompts) == [] ==> r.usedPrompts == {r.currentPrompt.value.id})
  {
    var s := SelectPrompt(PROMPTS, st.usedPrompts, randomIndex);
    assert IntroPromptEffect(st, randomIndex) == st.(currentPrompt := Some(s.prompt), usedPrompts := s.used);
    SelectPromptSpec(PROMPTS, st.usedPrompts, randomIndex);
  }

  // ---------------------------------------------------------------------
  // The onMessage reducer
  // ---------------------------------------------------------------------

  /** The screen phase a `gameUpdate` moves to, given the session phase it carries. */
  function PhaseAfterUpdate(state: SessionState, current: GameState): (g: GameState)
    ensures (state == WaitingForPlayers || state == Lobby) ==> g == current
    ensures state == Playing ==> g == (if current == Idle || current == Intro then ShowingPrompt else current)
    ensures (state == SessionState.RoundEnd || state == SessionState.GameEnd) ==> g == ShowingResult
  {
    match state
    case WaitingForPlayers => current
    case Lobby => current
    case Playing => if current == Idle || current == Intro then ShowingPrompt else current
    case RoundEnd => ShowingResult
    case GameEnd => ShowingResult
  }

  /** `playerList.filter(player => player.id !== id)`. */
  function RemovePlayer(players: seq<Player>, id: string): (r: seq<Player>)
    ensures forall p :: p in r <==> p in players && p.id != id
  {
    if players == [] then []
    else (if players[0].id == id then [] else [players[0]]) + RemovePlayer(players[1..], id)
  }

  /** A departing id that is not listed leaves the list as it is. */
  lemma {:induction false} RemoveAbsentPlayer(players: seq<Player>, id: string)
    requires forall i :: 0 <= i < |players| ==> players[i].id != id
    ensures RemovePlayer(players, id) == players
  {
    if players != [] {
      var tail := players[1..];
      assert forall i :: 0 <= i < |tail| ==> tail[i] == players[i + 1];
      RemoveAbsentPlayer(tail, id);
      assert players == [players[0]] + tail;
    }
  }

  /** Removing the first entry's id, when no other entry has it, leaves the rest. */
  lemma RemoveFirstPlayer(players: seq<Player>)
    requires players != []
    requires forall i :: 1 <= i < |players| ==> players[i].id != players[0].id
    ensures RemovePlayer(players, players[0].id) == players[1..]
  {
    var tail := players[1..];
    forall i | 0 <= i < |tail| ensures tail[i].id != players[0].id {
      assert tail[i] == players[i + 1];
    }
    RemoveAbsentPlayer(tail, players[0].id);
  }

  /**
   * With distinct ids, removing the id listed at position k drops exactly
   * that entry and keeps all others in their order.
   */
  lemma {:induction false} RemoveListedPlayer(players: seq<Player>, k: nat)
    requires k < |players|
    requires forall i, j :: 0 <= i < j < |players| ==> players[i].id != players[j].id
    ensures RemovePlayer(players, players[k].id) == players[..k] + players[k + 1..]
  {
    if k == 0 {
      RemoveFirstPlayer(players);
      assert players[..0] + players[1..] == players[1..];
    } else {
      var id, head, tail := players[k].id, players[0], players[1..];
      assert head.id != id;
      forall i, j | 0 <= i < j < |tail| ensures tail[i].id != tail[j].id {
        assert tail[i] == players[i + 1] && tail[j] == players[j + 1];
      }
      assert tail[k - 1] == players[k];
      RemoveListedPlayer(tail, k - 1);
      var kept := tail[..k - 1] + tail[k..];
      assert RemovePlayer(players, id) == [head] + kept;
      assert tail[..k - 1] == players[1..k] && tail[k..] == players[k + 1..];
      assert kept == players[1..k] + players[k + 1..];
      assert [head] + kept == ([head] + players[1..k]) + players[k + 1..];
      assert players[..k] == [head] + players[1..k];
    }
  }

  /** The client's reaction to one message from its connection. */
  function OnMessage(st: ClientState, m: ServerMessage): (r: ClientState)
    // Messages that carry a session replace the known session and the player list.
    ensures (m.GameUpdate? || m.PlayerJoined? || m.NewPlayerJoined? || m.GameStart? ||
             m.RoundEnd? || m.GameEnd?) ==>
      r.gameSession == Some(m.session) && r.playerList == m.session.players
    // Each kind's whole new state.
    ensures m.GameUpdate? ==>
      r == st.(gameSession := Some(m.session), playerList := m.session.players,
               currentRound := m.session.currentRound, roundResults := m.session.roundResults,
               currentPrompt := if m.session.currentPrompt.Some? then m.session.currentPrompt else st.currentPrompt,
               gameState := PhaseAfterUpdate(m.session.state, st.gameState))
    // Only the player's own join (no id known yet) sets who the player is.
    ensures m.PlayerJoined? ==>
      r == st.(playerId := if Truthy(st.playerId) then st.playerId else Some(m.playerId),
               isHost := if Truthy(st.playerId) then st.isHost else m.isHost,
               gameSession := Some(m.session), playerList := m.session.players,
               multiplayerErrorMessage := None)
    ensures m.NewPlayerJoined? ==>
      r == st.(gameSession := Some(m.session), playerList := m.session.players,
               multiplayerErrorMessage := None)
    ensures m.GameStart? ==>
      r == st.(gameSession := Some(m.session), playerList := m.session.players,
               currentRound := m.session.currentRound,
               currentPrompt := if m.session.currentPrompt.Some? then m.session.currentPrompt else st.currentPrompt,
               usedPrompts := {}, gameState := Intro)
    ensures m.RoundEnd? ==>
      r == st.(gameSession := Some(m.session), playerList := m.session.players,
               currentRound := m.session.currentRound, roundResults := m.session.roundResults,
               gameState := ShowingResult)
    ensures m.GameEnd? ==>
      r == st.(gameSession := Some(m.session), playerList := m.session.players,
               roundResults := m.session.roundResults, gameState := ShowingResult)
    ensures m.ErrorMessage? ==> r == st.(multiplayerErrorMessage := Some(m.message))
    ensures m.PlayerLeft? && st.gameSession.None? ==> r == st
    ensures m.PlayerLeft? && st.gameSession.Some? ==>
      r == st.(playerList := RemovePlayer(st.playerList, m.playerId),
               gameSession := Some(st.gameSession.value.(players := RemovePlayer(st.playerList, m.playerId))))
    ensures m.UnknownKind? ==> r == st
    ensures !m.PlayerJoined? ==> r.playerId == st.playerId && r.isHost == st.isHost
    ensures !m.GameStart? ==> r.usedPrompts == st.usedPrompts
    ensures r.isConnected == st.isConnected && r.playerName == st.playerName
    // Invariants the reducer keeps.
    ensures Coherent(st) ==> Coherent(r)
    ensures st.usedPrompts <= Ids(PROMPTS) ==> r.usedPrompts <= Ids(PROMPTS)
  {
    match m
    case GameUpdate(s) =>
      st.(gameSession := Some(s), playerList := s.players, currentRound := s.currentRound,
          roundResults := s.roundResults,
          currentPrompt := if s.currentPrompt.Some? then s.currentPrompt else st.currentPrompt,
          gameState := PhaseAfterUpdate(s.state, st.gameState))
    case PlayerJoined(_, isHost, playerId, s) =>
      var mine := !Truthy(st.playerId);
      st.(playerId := if mine then Some(playerId) else st.playerId,
          isHost := if mine then isHost else st.isHost,
          gameSession := Some(s), playerList := s.players, multiplayerErrorMessage := None)
    case NewPlayerJoined(_, s) =>
      st.(gameSession := Some(s), playerList := s.players, multiplayerErrorMessage := None)
    case GameStart(s) =>
      st.(gameSession := Some(s), playerList := s.players, currentRound := s.currentRound,
          currentPrompt := if s.currentPrompt.Some? then s.currentPrompt else st.currentPrompt,
          usedPrompts := {}, gameState := Intro)
    case RoundEnd(s) =>
      st.(gameSession := Some(s), playerList := s.players, currentRound := s.currentRound,
          roundResults := s.roundResults, gameState := ShowingResult)
    case GameEnd(s) =>
      st.(gameSession := Some(s), playerList := s.players, roundResults := s.roundResults,
          gameState := ShowingResult)
    case ErrorMessage(text) =>
      st.(multiplayerErrorMessage := Some(text))
    case PlayerLeft(id, _) =>
      if st.gameSession.Some? then
        var remaining := RemovePlayer(st.playerList, id);
        st.(playerList := remaining, gameSession := Some(st.gameSession.value.(players := remaining)))
      else
        st
    case UnknownKind(_) => st
  }

  /**
   * A `playerLeft` for a listed player, with a known session and distinct
   * ids, drops exactly that player from both the list and the session.
   */
  lemma PlayerLeftDropsExactlyOne(st: ClientState, k: nat, s: GameSession)
    requires st.gameSession.Some? && k < |st.playerList|
    requires forall i, j :: 0 <= i < j < |st.playerList| ==> st.playerList[i].id != st.playerList[j].id
    ensures OnMessage(st, PlayerLeft(st.playerList[k].id, s)).playerList ==
      st.playerList[..k] + st.playerList[k + 1..]
    ensures OnMessage(st, PlayerLeft(st.playerList[k].id, s)).gameSession.value.players ==
      st.playerList[..k] + st.playerList[k + 1..]
  {
    RemoveListedPlayer(st.playerList, k);
  }

  // ---------------------------------------------------------------------
  // Connection callbacks and button guards
  // ---------------------------------------------------------------------

  /** `gameService.onOpen`. */
  function OnConnectionOpened(st: ClientState): (r: ClientState)
    ensures r.isConnected && r.multiplayerErrorMessage.None?
    ensures r.(isConnected := st.isConnected, multiplayerErrorMessage := st.multiplayerErrorMessage) == st
  {
    st.(isConnected := true, multiplayerErrorMessage := None)
  }

  /** `gameService.onClose`: forget the session and who the player was. */
  function OnConnectionClosed(st: ClientState): (r: ClientState)
    ensures !r.isConnected && r.gameSession.None? && r.playerId.None? && !r.isHost
    ensures r.multiplayerErrorMessage == Some(DisconnectedText)
    ensures Coherent(r)
    ensures r == st.(isConnected := false, gameSession := None, playerId := None, isHost := false,
                     playerList := [], multiplayerErrorMessage := Some(DisconnectedText))
  {
    st.(isConnected := false, gameSession := None, playerId := None, isHost := false,
        playerList := [], multiplayerErrorMessage := Some(DisconnectedText))
  }

  /** What a button handler leaves behind: the new state and the request it sends, if any. */
  datatype Intent = Intent(state: ClientState, request: Option<ClientMessage>)

  /** `handleJoinGame`; `serviceReady` is whether the GameService has been created. */
  function HandleJoinGame(st: ClientState, serviceReady: bool): (r: Intent)
    ensures r.request.Some? <==> serviceReady && st.playerName != ""
    ensures r.request.Some? ==> r.request.value == JoinGame(st.playerName) && r.state == st
    ensures r.request.None? ==> r.state == st.(multiplayerErrorMessage := Some(EnterNameText))
  {
    if serviceReady && st.playerName != "" then Intent(st, Some(JoinGame(st.playerName)))
    else Intent(st.(multiplayerErrorMessage := Some(EnterNameText)), None)
  }

  /** `handleStartGame`: only a client that believes it is host sends `startGame`. */
  function HandleStartGame(st: ClientState, serviceReady: bool): (r: Intent)
    ensures r.request.Some? <==> serviceReady && st.isHost
    ensures r.request.Some? ==> r.request.value == StartGame && r.state == st
    ensures r.request.None? ==> r.state == st.(multiplayerErrorMessage := Some(NotAllowedToStartText))
  {
    if serviceReady && st.isHost then Intent(st, Some(StartGame))
    else Intent(st.(multiplayerErrorMessage := Some(NotAllowedToStartText)), None)
  }
}
