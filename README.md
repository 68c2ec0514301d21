# Hand-shape party game: verified model of the session core

This is a multiplayer party game. Each round shows a prompt: an object to
make with two hands, each showing a rock-paper-scissors shape (グー, チョキ,
パー). Players photograph their attempt, and an AI model scores it from 0 to
100. The project is a Dafny model of four parts of the game:

- **The WebSocket server's session coordinator** (`server.ts`). It keeps one
  shared lobby: an insertion-ordered roster and an optional session.
  - The first joiner becomes host, and the session is created lazily on
    that first join.
  - `startGame` moves the session to `playing`, round 1.
  - A malformed frame gets an error reply to its sender only.
  - Every other message type, and a disconnect, changes nothing.
- **The client's game logic** (`App.tsx`):
  - the random-without-repetition prompt selector, which resets once the
    catalog is used up;
  - the intro effect that uses it;
  - the `onMessage` reducer that applies server messages to the client state;
  - the connection callbacks;
  - the guards of the join and start buttons.
- **The client connection** (`services/gameService.ts`), class `GameService`:
  - a socket abstracted to its ready state;
  - a reconnect counter capped at 5 and reset on a successful open;
  - a close with code 1000 counts as normal;
  - sending succeeds only on an open socket.
- **Normalisation of the AI's answer** (`services/geminiService.ts`). The
  outcome of the model call becomes a score:
  - an exact model of the ``` fence-stripping regular expression;
  - the structure check;
  - rounding and clamping to [0, 100];
  - the choice of error message.

Files:

| file | module | contents |
|---|---|---|
| `wrappers.dfy` | `Wrappers` | `Option` |
| `types.dfy` | `GameTypes` | players, prompts, sessions and wire messages (`types.ts`) |
| `catalog.dfy` | `Catalog` | the five prompts `p1`..`p5` (`constants.ts`) and their ids |
| `prompt_selector.dfy` | `PromptSelector` | the selector, over any catalog, and its run properties |
| `app.dfy` | `App` | client state, the intro effect, the reducer, callbacks and guards |
| `server.dfy` | `Server` | class `Lobby` with the message handler's branches |
| `game_service.dfy` | `Connection` | class `GameService` and the reconnect policy |
| `gemini.dfy` | `Gemini` | `Evaluate` and the text processing it needs |

Modelling choices:

- **Stateful code is written as classes.** The server's module-level state
  and the `GameService` object become classes whose methods change their
  fields. A broadcast, a reply, a frame sent, a scheduled reconnect and a
  message handed to the `onMessage` callback are returned as values.
- **React handlers are functions.** Each handler becomes a function from one
  `ClientState` record to the next: a handler's setters each touch a
  different field and commit together. The state a handler reads is passed
  in explicitly.
- **Outside inputs are parameters.** Random ids and `Math.random` draws, the
  AI call's outcome and `JSON.parse` are all passed in.

## Model

| member | source | states |
|---|---|---|
| Catalog.Ids | constants.ts:3-44 | membership in the id set holds both ways: every prompt's id is in it, and every id in it belongs to a prompt |
| Catalog.CatalogDistinct | constants.ts:3-44 | the catalog has five prompts with pairwise distinct ids |
| PromptSelector.Unused | App.tsx:141 | the filtered list holds exactly the catalog prompts whose id is not used, and is no longer than the catalog |
| PromptSelector.SelectPromptSpec | App.tsx:140-156 | what one SelectPrompt call (the local selection) does: the chosen prompt is always in the catalog. If unused prompts remain, it is one of them and the used set grows by exactly its id. If every prompt is used, the used set becomes exactly {chosen id}. Used ids stay catalog ids |
| PromptSelector.SelectionIsUniform | App.tsx:144-155 | every candidate is chosen by some random index, and distinct indices choose distinct prompts |
| PromptSelector.UnusedDistinct | App.tsx:141 | filtering a catalog with distinct ids keeps them distinct |
| PromptSelector.UnusedRemovesOne | App.tsx:141-154 | marking one unused prompt as used shortens the unused list by exactly one |
| PromptSelector.UnusedIgnoresForeignId | App.tsx:141 | an id that is not in the catalog does not affect the unused list |
| PromptSelector.UnusedOfNothing | App.tsx:141 | with nothing used, every prompt is a candidate |
| PromptSelector.SelectLength | App.tsx:140-156 | a run of selections yields one prompt per draw |
| PromptSelector.SelectionsDoNotRepeat | App.tsx:140-156 | while unused prompts remain, successive selections are pairwise distinct and none was used before. The used set grows by exactly the chosen ids, and the unused list shrinks by one per draw |
| PromptSelector.ChosenFromCatalog | App.tsx:141-152 | every prompt a run of selections chooses is a catalog prompt |
| PromptSelector.RunThenReset | App.tsx:144-155 | from an empty used set, the first catalog-size selections are pairwise distinct. The next one repeats an earlier prompt, and the used set is reset to that prompt's id |
| PromptSelector.PromptsRunThenReset | App.tsx:140-156 | on the real catalog, five selections after a game start are distinct, and the sixth repeats one of them |
| App.IntroPromptEffect | App.tsx:131-158 | outside INTRO, or with a prompt already set, nothing changes. Otherwise a prompt is always set, and a session that carries a prompt supplies it with nothing else changed |
| App.IntroSelectsLocally | App.tsx:139-156 | without a session prompt, INTRO sets a catalog prompt and records its id as used; while unused prompts remain it was unused and the used set grows by exactly its id, otherwise the used set restarts with it; no other field changes |
| App.PhaseAfterUpdate | App.tsx:225-235 | waitingForPlayers and lobby keep the screen phase. playing moves IDLE or INTRO to SHOWING_PROMPT and keeps other phases. roundEnd and gameEnd go to SHOWING_RESULT |
| App.RemovePlayer | App.tsx:297 | the result holds exactly the listed players whose id differs from the departing one |
| App.RemoveAbsentPlayer | App.tsx:297 | removing an id nobody has leaves the list unchanged |
| App.RemoveListedPlayer | App.tsx:297 | with distinct ids, removing the id at position k drops exactly that entry and keeps the others in order |
| App.OnMessage | App.tsx:212-310 | the whole new state per message type. Every message that carries a session replaces the known session and the player list. gameUpdate also takes the round, the results and a server prompt when present, and maps the session phase through PhaseAfterUpdate. gameStart takes the round and a server prompt, clears the used set and enters INTRO. roundEnd takes the round and results, gameEnd only the results; both show results. The join messages clear the error; playerJoined sets who the player is only when no player id is known yet. error only records the message. playerLeft changes nothing without a known session and otherwise filters both the list and the session. Unknown types change nothing. Every other field is kept. The player list always mirrors the known session, and used ids stay catalog ids |
| App.PlayerLeftDropsExactlyOne | App.tsx:292-307 | a playerLeft for a listed player drops exactly that player, in order, from both the list and the known session |
| App.OnConnectionOpened | App.tsx:189-193 | connected, error cleared, nothing else changed |
| App.InitialIsCoherent | App.tsx:26-31 | the freshly mounted state, with no session and an empty player list, satisfies the invariant OnMessage keeps |
| App.OnConnectionClosed | App.tsx:195-203 | disconnected: the session, the player id, host status and the player list are cleared and the disconnect message is set; every other field is kept, and the player list mirrors the (absent) session |
| App.HandleJoinGame | App.tsx:318-324 | joinGame with the player's own name is sent exactly when the service exists and the name is non-empty. Otherwise only the enter-name error is set |
| App.HandleStartGame | App.tsx:326-332 | startGame is sent exactly when the service exists and the client is host. Otherwise only the not-allowed error is set |
| Server.AddPlayer | server.ts:22-31 | the roster grows by one entry at the end and the earlier entries are unchanged. The new entry has the supplied id and name and score 0, and is host exactly when the roster was empty |
| Server.NoHostCount | server.ts:22 | a roster without host flags counts zero hosts |
| Server.OneHost | server.ts:22 | with only the first joiner flagged, a non-empty roster has exactly one host |
| Server.AddPlayerKeepsOneHost | server.ts:21-31 | a join with a fresh id keeps ids distinct, keeps the first joiner the only host, and leaves exactly one host |
| Server.Lobby.ExactlyOneHost | server.ts:22-31 | between messages, a non-empty roster has exactly one host, the first joiner, and the session's hostId is that player |
| Server.Lobby.constructor | server.ts:7-8 | nobody has joined and there is no session |
| Server.Lobby.Join | server.ts:19-63 | the roster becomes AddPlayer of the old one, and exactly one host remains. On the first join the session is created: waitingForPlayers, round 1, no results or scores, the joiner as host. A later join only refreshes the session's roster, keeping its id, state and hostId. playerJoined is broadcast to all clients, with isHost true exactly for the first joiner |
| Server.Lobby.Start | server.ts:65-88 | with a session, it sets state to playing and round 1, changes nothing else, and broadcasts gameStart. Without one, nothing changes and nothing is sent. There is no host check |
| Server.Lobby.HandleMalformed | server.ts:94-101 | an invalid-format error replied to the sender only |
| Server.Lobby.HandleUnknown | server.ts:90-92 | nothing is sent |
| Server.Lobby.Disconnect | server.ts:104-107 | the roster and session are untouched, so the invariant is kept |
| Server.Lobby.HandleMessage | server.ts:13-102 | dispatch on the type tag. joinGame appends the player, creates the session on the first join or refreshes its roster, and broadcasts playerJoined with the new player, the first-player flag, the id and the session. startGame with a session sets it playing round 1 and broadcasts gameStart, and without one sends nothing. For a malformed frame, state is unchanged and an error goes to the sender. For nextRound, selectHandShape or any other tag, state is unchanged and nothing is sent |
| Connection.DecideOnClose | services/gameService.ts:56-63 | a reconnect is scheduled if and only if the code is not 1000 and fewer than 5 attempts were made. The client gives up if and only if 5 were made. It stays closed if and only if the code is 1000 below the limit |
| Connection.RetriesAreBounded | services/gameService.ts:56-60 | closes with no open in between never push the counter past 5, and the reconnects they schedule equal the counter's growth |
| Connection.AbnormalClosesExhaust | services/gameService.ts:56-63 | enough abnormal closes in a row bring the counter to exactly 5, after which every close gives up |
| Connection.Deliver | services/gameService.ts:42-50 | a parsed frame is passed through unchanged, and an unparsable one becomes the parse-failure error |
| Connection.GameService.constructor | services/gameService.ts:20-23 | a new service is already connecting, with zero attempts |
| Connection.GameService.Connect | services/gameService.ts:28-34 | a new socket is created exactly when the current one is neither OPEN nor CONNECTING. Otherwise nothing changes |
| Connection.GameService.HandleOpen | services/gameService.ts:36-40 | once open, the attempt counter is 0 |
| Connection.GameService.HandleClose | services/gameService.ts:52-64 | ws becomes null. A reconnect is scheduled 3000 ms out exactly when DecideOnClose says so, and the counter grows by one exactly then. The reconnect-failed error is emitted exactly when 5 attempts were already made. The counter stays at most 5 |
| Connection.GameService.Close | services/gameService.ts:76-82 | a normal closure is requested exactly when the socket is OPEN, and only then does the socket move to CLOSING |
| Connection.GameService.SendMessage | services/gameService.ts:88-95 | the frame is sent exactly when OPEN. Otherwise the not-connected error goes to onMessage |
| Connection.GameService.JoinGame | services/gameService.ts:101-107 | sends joinGame with the given name under the send rule |
| Connection.GameService.StartGame | services/gameService.ts:112-114 | sends startGame under the send rule |
| Connection.GameService.StartNextRound | services/gameService.ts:119-121 | sends nextRound under the send rule |
| Connection.GameService.SelectHandShape | services/gameService.ts:129-137 | sends selectHandShape with the given session, player and shape under the send rule |
| Gemini.TrimStart | services/geminiService.ts:45 | the result is a suffix of the input, everything dropped is white space, and it does not start with white space |
| Gemini.TrimEnd | services/geminiService.ts:54 | the result is a prefix of the input, everything dropped is white space, and it does not end with white space |
| Gemini.Trim | services/geminiService.ts:45-54 | the result occurs in the input at some index with only white space before and after it, and has no white space at either end |
| Gemini.DropWordChars | services/geminiService.ts:51 | the result is a suffix of the input, everything dropped is a word character, and it does not start with one |
| Gemini.Unwrap | services/geminiService.ts:51-55 | text without ``` at both ends is unchanged. A changed result is fenced, non-empty and trimmed |
| Gemini.Contains | services/geminiService.ts:70-72 | true if and only if the pattern occurs at some index |
| Gemini.ErrorFeedback | services/geminiService.ts:67-75 | a message containing "API key not valid" gives the invalid-key text, which takes precedence. Otherwise one containing "quota" gives the quota text. Anything else, or a non-Error throw, gives the generic text |
| Gemini.Round | services/geminiService.ts:60 | the nearest integer, with halves rounded up |
| Gemini.Clamp | services/geminiService.ts:60 | the result is in [0, 100]: kept inside the range, 0 below it, 100 above it |
| Gemini.Evaluate | services/geminiService.ts:16-76 | the points are in [0, 100] on every path. No key gives the missing-key text. Empty or absent text gives the empty-response text. A well-formed value gives its rounded, clamped points and its own feedback. A wrong shape gives the unreadable text. A parse error, a null value or a failed call gives 0 with ErrorFeedback's choice. Only a well-formed value can score |
| Gemini.IntegerScoreKept | services/geminiService.ts:60 | an integer score already in [0, 100] is passed through unchanged |
| Gemini.UnwrapFencedBody | services/geminiService.ts:51-55 | the fence round trip: ```tag + white space + body + white space + ``` unwraps to the body, when the body is trimmed and does not run into the tag |
| Gemini.UnwrapJsonFence | services/geminiService.ts:51-55 | the ```json fence with newlines unwraps to the body |
| Gemini.EmptyFenceKept | services/geminiService.ts:51-55 | a fence holding only a tag and white space is kept as it is, since its capture group is empty |
| Gemini.FailuresScoreZero | services/geminiService.ts:16-76 | every path except a well-formed value scores 0 |

## Left out

- Transport: the server's broadcast over its clients (server.ts:58-62, 78-82) and `new WebSocket` (services/gameService.ts:34). A broadcast or reply is a returned value, and a socket is its ready state. Which clients are open at send time is not modelled.
- Randomness: `generatePlayerId` and `generateSessionId` (server.ts:114-120) and the `Math.random` draws of the selector (App.tsx:146, 151) are parameters.
- Server.Lobby.Join: it requires a fresh player id. A random-id collision, which would overwrite an entry of the Map, is not modelled.
- Timers: the reconnect `setTimeout` (services/gameService.ts:59) is returned as its delay. A pending reconnect is not cancelled by `close()`, and that interaction is not modelled. The intro, prompt and countdown timers and the interval of App.tsx are left out, so the move from INTRO to SHOWING_PROMPT is not modelled.
- Rendering and UI: the JSX, the components, the camera and the `onError` banner are left out.
- The AI call: the SDK request, the prompt text and the image split are abstracted into `CallOutcome`. `JSON.parse` is a function parameter returning what the code observes of the value. The TypeError message for a `null` value is an input, since it depends on the engine.
- Gemini.Round: works on exact reals. An infinite `points`, which `JSON.parse` produces for a huge literal such as 1e400, is outside the model, and floating-point rounding is not modelled.
- Connection.Deliver: the `try` of services/gameService.ts:43-49 also wraps the call to `onMessage`. If the reducer throws, the catch hands it a second, parse-failure error. In the code it throws on a parsed `null` (reading `type`, App.tsx:212) and on a session-carrying frame without a `session`, after some setters have already run. `Frame` only has well-formed messages and unparsable text, so neither the throw, the partial update nor the second delivery is modelled.
- Stale closures: at runtime the reducer is installed once (App.tsx:185, 316), so it reads the state of the first render. The model passes the state explicitly, as the code is written, and claims nothing about the closure.
- Server features the code does not implement: hand-shape submission, scoring, ranking, `nextRound`, host reassignment and removal on disconnect. `selectHandShape` and `nextRound` reach the `default` branch, and disconnect is a no-op.
- Behaviour of the code worth knowing, which the model follows:
  - `playerJoined` is broadcast to every client, not only the joiner;
  - `startGame` has no host check;
  - the server's session literal omits `totalRounds` (server.ts:35-43 vs types.ts:84);
  - the client's `playerJoined` handler sets `playerId` only when it has none, so a client without an id adopts whichever join it sees first.
- `handleSelectHandShape`, `submitScore` and the single-player flow of App.tsx are outside the modelled core.
