# Xiangqi: rules, online play and message layer, modelled and proved in Dafny

The system is a Xiangqi (Chinese chess) game that runs in two browsers and a C server. This
project models four parts of it and proves what each promises.

**Rules and games** (`Options`, `Rules`, `Pieces`, `Board`, `Game`, `Safety`, `Symmetry`). `Rules.dfy` says
declaratively how each piece reaches a square, what check and a legal move are. `Pieces.dfy` and
`Board.dfy` hold the mutable piece objects, their offset tables and loops, the copied board of the
suicide test and the exhaustive search; every validator and every search is proved to decide
exactly the declarative relation. `Game.dfy` is the click loop, on values and as a class proved to
follow them. The code's own tests look weak alone: a general only asks which palace edge it stands
on, a move never asks whose turn it is, check detection assumes a king. `Safety.dfy` proves the
invariant of all games from the opening that makes them sufficient, and `Symmetry.dfy` that the
rules do not prefer a side or a colour.

**Online play** (`Network`, `Protocol`). Two client replicas, the server's record and four FIFO
channels. A client applies the opponent's move without a test and the server trusts its clients.
The proof that both are right rests on a token: the right to move is with one client, in a move on
its way up, in a move on its way down, or lost with a refused move, which happens only when the
match is over or its record of 300 moves is full. One thing breaks it: the player who asks for a
match is told of it twice (`network/c_server/src/handlers.c:369` and `:398`; the second one is
turned into a `match_found` at `src/network/websocketBridge.js:182-198`), and the second message
resets that player's board. `Agreed` says what agreement is: the lists of both replicas and the
server are one legal game up to one move, each playing board shows its list, the right to move
exists once, and each move about to be applied untested is legal where it arrives; `Complete` says
that no move is lost. Along every run from the opening both hold in every state if and only if no
`match_found` is delivered to a replica that it would set back, a condition on the state before the
delivery. Up to the end of the match `Agreed` alone already fails exactly then; after the end it
may survive, and it is `Complete` that fails. A concrete run shows the turn doubled; and if red
waits for both messages before its first click, every run whatever agrees.

**The server's tables** (`Match`, `MatchStore`, `Rating`, `Records`, `Lobby`, `Server`). One match
over time with its clocks in wrapping 32-bit milliseconds; the static table as an array updated in place,
with its linear search, id strings, sweep and queue of timeouts; ratings, and the records of a
whole server over any sequence of requests; the ready list as an array; and the handlers that join
them.

**Messages** (`Framing`, `Bridge`, `Escape`). Newline framing in fixed buffers, `extract_messages`,
the accumulating WebSocket bridge, the table of pending requests, and the two JSON string escapers.

Conventions. Clock readings, facts about connections (`canSend`, `connected`, `notified`)
and the expected score are parameters. Machine integers are written out where they can wrap.
A class method's `ensures` ties the new state to a function of the old one; the properties of
those functions are lemmas. History (`logs`, `issued`, `settled`, `messages`) is kept beside the
state so that whole runs can be spoken of.

Where the code and its documents differ, the model follows the code: pawns step sideways on their
own half and no longer beyond the river (`src/models/pieces/Pawn.js:19-31`, the reverse of
`docs/SYSTEM_FLOW.md:736-747`), and a reply "queued" does not always mean standing in the ready
list (`network/c_server/src/handlers.c:327-333`).

`dafny verify dfyconfig.toml` checks everything.

## Model

| member | source | states |
|---|---|---|
| `Pieces.Piece.ValidateGeneral` | src/models/pieces/General.js:37-65 | accepts exactly the palace-edge steps and the flying capture of the first piece on the file when it is a general, and leaves the four steps of the shared table as they were although it writes the fifth entry |
| `Pieces.Piece.FindColTgt` | src/models/pieces/General.js:17-35 | finds a target exactly when the first piece on the file, towards the enemy, is a general of either colour, and it is that piece's offset |
| `Pieces.Piece.ValidateChariot` | src/models/pieces/Chariot.js:88-109 | the scan of the offset tables accepts exactly the squares on the same row or column, different from the source, nothing strictly between, no friend on it |
| `Pieces.Piece.RowLimit` | src/models/pieces/Chariot.js:54-69 | the limit is the last table index before the edge or on the first piece met |
| `Pieces.Piece.ColLimit` | src/models/pieces/Chariot.js:71-86 | the same along the row |
| `Pieces.RaysReach` | src/models/pieces/Chariot.js:88-109 | the entries up to the four limits are together exactly the squares with a clear line |
| `Pieces.Piece.ValidateCannon` | src/models/pieces/Cannon.js:8-48 | accepts an empty target with a clear line and an enemy behind exactly one screen |
| `Pieces.Piece.ValidateHorse` | src/models/pieces/Horse.js:20-38 | accepts exactly the horse's jumps whose leg square is free |
| `Pieces.Piece.ValidateElephant` | src/models/pieces/Elephant.js:16-38 | accepts exactly the two-step diagonals inside the own half with a free eye |
| `Pieces.Piece.ValidateAdvisor` | src/models/pieces/Advisor.js:16-29 | accepts exactly the one-step diagonals into the own palace |
| `Pieces.Piece.ValidatePawn` | src/models/pieces/Pawn.js:16-34 | accepts the forward step, and sideways steps only on the own half, as the code has it |
| `Pieces.Piece.ValidateMove` | src/models/pieces/ChessPiece.js:12-35 | whatever the kind, the answer is whether the piece attacks the square; the shown position does not change |
| `Safety.CannonVersusChariot` | src/models/pieces/Cannon.js:38-47 | cannon and chariot agree on every empty square and never both take the same piece |
| `Safety.ChariotSlides` | src/models/pieces/Chariot.js:88-109 | a chariot reaches the next square always, and one further on exactly when it reaches the one before and that one is empty |
| `Safety.CannonJumps` | src/models/pieces/Cannon.js:38-47 | a cannon takes a piece exactly when some piece in between is all that keeps a chariot from it |
| `Safety.GeneralStepsInPalace` | src/models/pieces/General.js:40-62 | in its palace the edge tests leave a general exactly the neighbouring palace squares |
| `Safety.LegIsBetween` | src/models/pieces/Horse.js:20-38 | the leg is the one square beside the horse from which the target is a diagonal step |
| `Safety.EyeIsHalfway` | src/models/pieces/Elephant.js:16-38 | the eye is the square halfway |
| `Safety.PawnReaches` | src/models/pieces/Pawn.js:16-34 | on its own half a pawn reaches the squares ahead and beside it, beyond the river only the one ahead |
| `Boards.IsKingInDanger` | src/core/board.js:67-98 | true exactly when the colour has no general or the first one in row order can be taken, in particular always without a general; nothing visible changes |
| `Boards.Board.IsSuicideMove` | src/core/board.js:103-122 | tells exactly whether the mover would be in check after the move, while the real board, every piece's coordinates and all tables' steps stay as they were |
| `Games.GameController.SuicideTestForetells` | src/core/board.js:103-122 | the suicide test before a move gives the same answer as check detection on the real board once the move is really made |
| `Boards.Board.MovePiece` | src/core/board.js:46-61 | true exactly when the piece stands where it says and the move is legal; off-board targets are refused |
| `Boards.Board.HasValidMoves` | src/core/board.js:128-151 | the four-deep search is sound and complete: true exactly when the colour has some legal move |
| `Boards.Board.CheckWinner` | src/core/board.js:157-168 | names a winner exactly when the side to move has no legal move, and never the side to move |
| `Boards.Board.InitBoard` | src/core/board.js:15-39 | a fresh board showing exactly the listed pieces |
| `Games.GameController.CheckGameStatus` | src/core/gameController.js:291-333 | announces an end exactly when no legal move is left; the winner is not the side to move, and the reason is checkmate exactly when that side is in check |
| `Games.AnnouncedMeans` | src/core/gameController.js:312-332 | the same of the value announced, with stalemate exactly when the loser is not in check |
| `Games.ClickMeans` | src/core/gameController.js:171-224 | what one click changes, square by square: a legal move of the selected piece and the turn, or else at most the selection, and which |
| `Games.ListenersMean` | src/core/gameController.js:335-383 | the two piece listeners change nothing but the selection, and when |
| `Games.GameController.ExecuteMove` | src/core/gameController.js:226-289 | the new state is the moved position with the turn passed, nothing selected, and the game stopped exactly when it is over |
| `Games.GameController.HandleBoardClick` | src/core/gameController.js:171-224 | one click selects, deselects, reselects or makes exactly a legal move, and does nothing in a stopped game |
| `Games.GameController.ChoosePiece` | src/core/gameController.js:335-361 | selects only a piece of the side to move, and only while the game is on |
| `Games.GameController.CancelPiece` | src/core/gameController.js:363-383 | deselects only the selected piece |
| `Games.GameController.Reset` | src/core/gameController.js:93-119 | back to the initial position, red to move, game on, nothing selected |
| `Safety.OpeningPlaced` | src/core/config.js:4-5 | placing the 32 listed pieces one after the other gives the opening square by square |
| `Safety.PlayIsSafe` | src/core/gameController.js:171-289 | after any sequence of clicks, selections, resignations and resets both generals are on the board, the side not to move is not in check, the generals do not face each other, and generals, advisors, elephants and pawns stand only on the squares of their kind |
| `Safety.LegalMoveKeepsSafe` | src/core/board.js:46-61 | from a safe game a legal move never takes a general and leads to a safe game |
| `Safety.ReachStaysHome` | src/models/pieces/General.js:37-65 | a step that takes no general keeps every piece on the squares of its kind, although the general tests no target |
| `Safety.FacingIsCheck` | src/models/pieces/General.js:17-35 | generals facing on an open file are check to both sides |
| `Safety.PlayIsNeverStuck` | src/core/gameController.js:312-332 | while a game from the opening is on, the side to move has a legal move |
| `Safety.PawnsNeverRetreat` | src/models/pieces/Pawn.js:16-34 | followed through any run, a piece keeps its identity, a pawn never steps back, and beyond the river it stays on its file |
| `Symmetry.AttacksSymmetric` | src/core/board.js:46-98 | mirroring the board, or turning it and swapping colours, keeps who attacks what |
| `Symmetry.CheckSymmetric` | src/core/board.js:67-98 | the same for check, on every board with at most one general of each colour |
| `Symmetry.LegalSymmetric` | src/core/board.js:46-61 | the same for legal moves |
| `Symmetry.WinnerSymmetric` | src/core/board.js:128-168 | the same for having a move, and the winner is carried over |
| `Symmetry.ClickSymmetric` | src/core/gameController.js:171-289 | a click on the image of a square in the image of a game gives the image of the game after the click |
| `Symmetry.OpeningSymmetric` | src/core/config.js:4-5 | the opening is its own image under both symmetries |
| `Symmetry.ContinuedSymmetric` | src/core/gameController.js:171-289 | from any safe game, playing the images of any events but resets gives the image of the game played, under both symmetries |
| `Symmetry.PlayMirrored` | src/core/gameController.js:171-289 | any whole game from the opening, resets included, played left-right reversed is the same game left-right reversed |
| `Network.NetworkGameController.HandleMatchFound` | src/core/networkGameController.js:202-231 | joining resets the board and gives the turn to red; who was a spectator stays one |
| `Network.NetworkGameController.JoinSpectate` | src/core/networkGameController.js:172-183 | watching puts the client online without a turn and marks it a spectator |
| `Network.SpectatorsNeverMove` | src/core/networkGameController.js:260-264 | the mark is never cleared by anything the client does, and a client that bears it neither moves nor sends, even in a match of its own |
| `Network.ClickSendsExactly` | src/core/networkGameController.js:254-304 | when a click online or offline moves, when it sends and what, and when it gives up the turn |
| `Network.OffBoardMoveLosesThePiece` | src/core/gameController.js:238-240 | a received move with a target off the board takes the piece off the board, leaves it selected, and does not give the turn back |
| `Network.NetworkGameController.HandleBoardClick` | src/core/networkGameController.js:235-305 | online, a legal click moves and sends exactly when it is the client's turn, the client is no spectator and the message can be sent; otherwise nothing moves |
| `Network.NetworkGameController.HandleOpponentMove` | src/core/networkGameController.js:307-349 | for any coordinates: without a piece on the source nothing changes; with a target on the board the move is applied untested and the turn comes back; with a target off the board the piece vanishes and stays selected, and the turn does not come back |
| `Network.NetworkGameController.HandleGameEnd` | src/core/networkGameController.js:408-415 | the end takes the client offline and its turn away, and leaves the board |
| `Protocol.RunAgreesIffSound` | src/core/networkGameController.js:235-349 | in every run from the opening, all states agree and lose no move if and only if no match_found sets a replica back: lists that differ by at most one move and are legal games, one right to move while both play and never two, each playing board the one its list leads to, each move about to be applied untested legal on the receiver's board, each logged move on every board or on its way to it |
| `Protocol.PlayingRunAgreesIffSound` | src/core/networkGameController.js:235-349 | up to the end of the match the agreement itself, without the clause on lost moves, holds in all states under exactly that condition |
| `Protocol.EndedMatchHidesTheLoss` | src/core/networkGameController.js:202-231 | after the end of a one-move game, with black gone, a second match_found sets red back and the agreement without the clause on lost moves still holds |
| `Protocol.AgreesIffSound` | src/network/websocketBridge.js:182-198 | the same for one action from any state of the token's invariant, match ended or not |
| `Protocol.HarmfulJoinDisagrees` | src/core/networkGameController.js:202-231 | during a match a second match_found that sets red back at once gives the turn twice or leaves red two moves behind |
| `Protocol.ReplicasAgree` | src/core/networkGameController.js:235-349 | the agreement, with no move lost, after every run without such a delivery |
| `Protocol.ReplicasAgreeOnceInformed` | src/core/networkGameController.js:202-349 | the same agreement without any condition on deliveries, in every run in which red does not click before both match_found messages have reached it |
| `Protocol.RunsAgree` | network/c_server/src/handlers.c:441-509 | the token invariant holds in every state of every such run, from any safe setup |
| `Protocol.KeepsIffSound` | src/network/websocketBridge.js:182-198 | one action leaves some place for the token if and only if it does not deliver a match_found to a replica that it would set back |
| `Protocol.SecondJoinDoublesTheTurn` | network/c_server/src/handlers.c:368-398 | a four-step run in which the second match_found leaves red, no spectator, holding the turn with its first move still under way |
| `Protocol.AppliedMoveIsLegal` | src/core/networkGameController.js:327-347 | a relayed move is legal for the opponent on the receiver's board when it arrives |
| `Protocol.AskedMoveIsInTurn` | network/c_server/src/handlers.c:441-448 | a move reaching the server is never refused as out of turn, so no client is left waiting for that |
| `Protocol.EndIsToldExactly` | network/c_server/src/handlers.c:600-608 | in every run from the creation of a match in which no sweep hides a finding: once the match is over each client has an ending on its way to it or is offline with no match_found left, and before that neither is so |
| `Protocol.EndingReachesBoth` | network/c_server/src/handlers.c:458-466 | the step that ends a match, by expiry, resignation, draw or an announced sweep, sends the ending to both clients; an unannounced sweep sends nothing |
| `Protocol.ServedMeans` | network/c_server/src/handlers.c:441-548 | a resignation loses for its sender, an accepted draw is a draw, an accepted move goes as sent to the other player alone, a refused one to nobody |
| `Protocol.SendsMean` | src/core/networkGameController.js:352-364 | what the resign and draw buttons send, and when |
| `Protocol.RightIsNotLost` | network/c_server/src/handlers.c:450-486 | in every run from the opening without a delivery that sets a replica back, a refused move leaves a client waiting only when the match is over or its record of 300 moves is full: short of that somebody can always go on |
| `Protocol.FullMatchIsStuck` | network/c_server/src/match.c:119 | at 300 moves nothing more is accepted in any such run, and a client whose move was refused stays one move ahead for good |
| `Matches.RunIsCoherent` | network/c_server/src/match.c:115-132 | over any run the turn string is red exactly when the move count is even, active holds exactly while the result is ongoing, clocks that start positive stay so while the match is active, and the log only grows |
| `Matches.OutcomeIsWrittenOnce` | network/c_server/src/handlers.c:537-547 | a match inactive at some point of a run never changes again in any field, over any mix of moves, resignations, draws and sweeps |
| `Matches.ConversionsMean` | network/c_server/include/match.h:13-16 | a stored coordinate or elapsed time is the value of its type that differs from the number by whole turns of the range |
| `Matches.EndingsName` | network/c_server/src/handlers.c:455-547 | the result and reason of every way a match ends, written out: the resigner loses, a draw is a draw, the side to move loses on time whoever finds it, an unannounced match is aborted |
| `Matches.RepliesMean` | network/c_server/src/handlers.c:441-486 | when a move is refused as out of turn, ends the match on time, or is accepted |
| `Matches.AcceptedIsRecorded` | network/c_server/src/handlers.c:472-486 | an accepted move is logged with its coordinates, the time, and both clocks after the charge, the mover's shorter by the time taken and the other as it was |
| `Matches.ElapsedIsExact` | network/c_server/src/match.c:327-328 | the 32-bit elapsed time is exact if and only if the gap is within 2147483 s either way |
| `Matches.ExactIffMeasured` | network/c_server/src/match.c:323-340 | one step keeps the clocks exact if and only if its charge, if it makes one that the match survives, is within 2147483 s either way |
| `Matches.ClocksAreExact` | network/c_server/src/match.c:323-340 | throughout a run each clock of the active match is the initial time less 1000 per second charged to its own turns, and all charges add up to the time from start to last move, if and only if every charge the match survives is within 2147483 s either way |
| `Matches.LongGapWraps` | network/c_server/src/match.c:323-355 | a gap of 4294968 s wraps: 704 ms and no more are taken from the mover's clock, and the match goes on |
| `Matches.SweptClocksAreExact` | network/c_server/src/server.c:425-427 | with at most ten minutes a side and readings that never go back and come at most 2146883 s after a sweep, the clocks are exact in every run: the sweep ends a match before its gap can wrap |
| `Matches.CreatedClocksAreExact` | network/c_server/src/match.c:52-64 | so they are in every match from its creation with a positive time of up to ten minutes a side |
| `Matches.PacedIsTimely` | network/c_server/src/match.c:398-439 | under the same schedule, a condition on the clock readings alone, every reading of an active match lies within the exact range |
| `Matches.TimeoutPathsAgree` | network/c_server/src/handlers.c:450-456 | at one instant update-then-check, the bare check, the sweep, the reply to a move and a zero in the timer view give the same verdict, the same winner, who is not the side to move, and the same reason |
| `Matches.TimerViewIsUpdate` | network/c_server/src/match.c:358-377 | the timer shown is what an update at that instant would store |
| `MatchStores.DecimalIsInjective` | network/c_server/src/match.c:53 | different counters are rendered differently |
| `MatchStores.DecimalDenotes` | network/c_server/src/match.c:53 | the digits denote the number |
| `MatchStores.MatchIdsDiffer` | network/c_server/src/match.c:53 | ids made from different counters differ whatever the clock said |
| `MatchStores.SearchFindsOwnSlot` | network/c_server/src/match.c:70-77 | in a well-formed table the linear first-match search for a created id stops at its own slot |
| `MatchStores.TableHistory` | network/c_server/src/match.c:34-77 | over any sequence of operations on the table a created match has a non-empty id, is found by it ever after, and once inactive its record is never touched again |
| `MatchStores.OperateKeepsTable` | network/c_server/src/match.c:34-144 | every operation keeps the used slots a prefix counted by match_count, with coherent matches and numbered ids |
| `MatchStores.QueuedOnce` | network/c_server/src/match.c:398-453 | over any sequence of operations on the table, with any number of sweeps and however often the queue is emptied, no match is queued twice for its timeout |
| `MatchStores.AllFoundAreQueued` | network/c_server/src/match.c:398-439 | each timeout ever queued tells of its own match as it stands recorded at the end, and at most 500 ever are |
| `MatchStores.SweepFindsAll` | network/c_server/src/match.c:401-437 | a sweep finds exactly the slots out of time |
| `MatchStores.QueueHasNoDuplicates` | network/c_server/src/match.c:426-433 | timeouts from different slots of one table have different ids |
| `MatchStores.TimeoutIsNew` | network/c_server/src/match.c:426-433 | a match found out of time is not queued yet, and the 500 places never run out |
| `MatchStores.MatchStore.MatchGet` | network/c_server/src/match.c:70-77 | returns the first slot with the id, or fails exactly when none has it |
| `MatchStores.MatchStore.MatchCreate` | network/c_server/src/match.c:34-67 | for any initial time: fails exactly on a full table; otherwise takes the first free slot, changes nothing else, and the new id leads to it |
| `MatchStores.MatchStore.HandleMove` | network/c_server/src/handlers.c:435-486 | the record changes as one step of the match, every other record stays, and the reply is the one of that step |
| `MatchStores.MatchStore.MatchUpdateTimer` | network/c_server/src/match.c:323-340 | charges the time since the last reading to the side to move, never below zero |
| `MatchStores.MatchStore.MatchCheckAllTimeouts` | network/c_server/src/match.c:398-439 | every record is swept, and all timeouts found are queued in slot order; with Valid, never one that was queued before, drained or not |
| `MatchStores.MatchStore.MatchGetPendingTimeouts` | network/c_server/src/match.c:442-453 | hands out the oldest entries up to the limit and forgets the others |
| `Ratings.CalculateIsNearest` | network/c_server/src/rating.c:20-37 | each change is the whole number nearest to K times the score above expectation, halves away from zero, with scores 1, 1/2 and 0 |
| `Ratings.WinEarnsPoints` | network/c_server/src/rating.c:36-37 | a win worth at least half a point earns at least one, and costs the loser as much |
| `Ratings.SettledPays` | network/c_server/src/handlers.c:562-566 | both stored ratings move by that number, with K 32 |
| `Ratings.ChangesBalance` | network/c_server/src/rating.c:16-40 | the two changes cancel exactly, neither exceeds K, and a winner never loses points |
| `Ratings.EarnsNoLess` | network/c_server/src/rating.c:36-37 | a result no worse for red, from an expectation no higher, earns red no less and black no more |
| `Ratings.WinnerIsRewarded` | network/c_server/src/handlers.c:563-582 | a rated win gives the winner a win and no fewer points, the loser a loss and no more points, and touches nobody else |
| `Ratings.RatingsAreConserved` | network/c_server/src/handlers.c:554-585 | over any sequence of rated endings the total rating is constant, wins grow exactly as losses do, and draws grow by an even number |
| `Records.RecordsBalance` | network/c_server/src/handlers.c:537-697 | over any sequence of registrations, pairings, moves, resignations, draws and sweeps: each match settles ratings at most once and only when over; the ratings add up to 1200 a user; wins equal losses; wins and half the draws number the games settled; the players of every rated match are two registered users |
| `Records.SettlingIsNew` | network/c_server/src/handlers.c:537-554 | a match that settles has not settled before, and is over afterwards |
| `Records.HandleKeepsKnown` | network/c_server/src/handlers.c:257-403 | every request keeps the players of all rated matches registered and different |
| `Lobbies.Lobby.SetReady` | network/c_server/src/lobby.c:35-64 | refreshes the one entry of a known player, appends a new one while there is room, keeps everyone else in order, and keeps the list free of duplicates |
| `Lobbies.ReadiedMeans` | network/c_server/src/lobby.c:37-59 | position by position: everybody keeps the place, the player's own entry is the new one, a newcomer goes to the end if there are fewer than 100 |
| `Lobbies.Lobby.RemovePlayer` | network/c_server/src/lobby.c:67-78 | the shifting loop removes exactly that player and keeps the order |
| `Lobbies.Lobby.FindRandomMatch` | network/c_server/src/lobby.c:101-113 | takes the earliest other player, removes exactly the two; fails exactly when nobody else is there |
| `Lobbies.Lobby.FindRatedMatch` | network/c_server/src/lobby.c:116-139 | takes the earliest player of least rating difference within the tolerance, removes exactly the two; fails exactly when nobody is close enough |
| `Servers.Server.Register` | network/c_server/src/db.c:131-141 | a new user starts at 1200 with no games; nothing else changes |
| `Servers.Server.HandleMove` | network/c_server/src/handlers.c:435-486 | the records change as by that one request, and the reply is that of the step |
| `Servers.Server.SweepTimeouts` | network/c_server/src/server.c:425-451 | every record is swept, the first hundred timeouts are handed out, and the queue is empty |
| `Servers.Server.HandleResign` | network/c_server/src/handlers.c:537-585 | ends an active match once, and settles ratings exactly if it was rated: the resigning player gets a loss and no points more, the other a win and no points less; otherwise nothing changes |
| `Servers.Server.HandleDrawResponse` | network/c_server/src/handlers.c:664-697 | an accepted draw ends an active match once, and in a rated one adds a draw, no win and no loss, to both; a refusal changes nothing |
| `Servers.Server.FindMatch` | network/c_server/src/handlers.c:257-403 | the opponent is the one the search over the list with the requester in it must choose, or there is none; the reply is the first test that fails; a match made is new and active, or aborted when a notification failed, and otherwise the table is untouched; the list is given for each reply |
| `Servers.AnswerMeans` | network/c_server/src/handlers.c:322-398 | which answer is given exactly when, once an opponent is found |
| `Servers.SearchIsWithin200` | network/c_server/src/handlers.c:306 | a rated search finds somebody within 200 points, and nobody only if all others are further off |
| `Servers.PairingMeans` | network/c_server/src/handlers.c:336-376 | the match made: requester red, opponent black, red to move, ten minutes each, active or aborted, all other records as they were |
| `Servers.OthersKeepTheirPlaces` | network/c_server/src/handlers.c:302-309 | once an opponent is found exactly the two have left the list, and everyone else stands in the same order |
| `Servers.RollbackRequeues` | network/c_server/src/handlers.c:378-388 | after a failed notification the requester, then the opponent, stand behind everyone else, each if and only if still connected; only when the list was full without the requester is the opponent refused |
| `Servers.InListAfter` | network/c_server/src/handlers.c:311-398 | who of the two is in the list after each reply: nobody, except after a rollback |
| `Framing.LinesAppend` | network/c_server/src/server.c:297-317 | splitting is incremental: only the unfinished line of what came before matters |
| `Framing.LinesOfJoined` | network/c_server/src/server.c:297-309 | texts sent one to a line arrive in order, except that empty ones are dropped |
| `Framing.LinesAreProper` | network/c_server/src/server.c:304-306 | nothing delivered is empty or holds a newline |
| `Framing.TrimmedIsProper` | network/ws-bridge.js:58-66 | nothing empty is forwarded, and every line that is more than blanks is |
| `Framing.LineReceiver.Feed` | network/c_server/src/server.c:294-317 | in the fixed buffer, one read hands on exactly the newly completed non-empty lines in order and keeps exactly the unfinished one |
| `Framing.LineReceiver.ServerRead` | network/c_server/src/server.c:273-327 | the buffer follows the model of one read: lines handed on, rest kept, client dropped exactly at an end of the connection or when an unfinished line fills the buffer |
| `Framing.LineReceiver.ClientRead` | network/c_client/src/client.c:111-165 | the same on the client, which stops at any empty read, whether the peer has closed or no room was left |
| `Framing.LineReceiver.Receive` | network/c_server/src/server.c:273-327 | a stream read through the fixed buffer of either side, in reads of any sizes: what has been handed on is always exactly the non-empty lines of the part taken, what is held is its unfinished line, the connection stands exactly as long as the theorem below says, and with lines up to 16382 characters it stands to the end of the stream |
| `Framing.StreamIsSplitExactly` | network/c_client/src/client.c:111-165 | on the server and on the client, for every stream and every way of cutting it: while connected the messages are the non-empty lines of the whole stream; the connection stands exactly as long as no read is empty and no unfinished line fills the buffer, on the client before another read |
| `Framing.ShortLinesAreSafe` | network/c_server/src/server.c:319-325 | on either side lines of up to 16382 characters are never cut and never end the connection |
| `Framing.ExtractMessages` | network/c_server/src/protocol.c:207-248 | the two-pass extraction returns exactly the non-empty lines of the buffer |
| `Framing.TcpBridge.OnData` | network/ws-bridge.js:46-70 | forwards the same lines, trimmed and without those that become empty, and keeps the unfinished one |
| `Bridges.KeepsValidIffSerialisable` | src/network/websocketBridge.js:258-331 | every step keeps the table consistent, if and only if it is not a request whose payload has no JSON form: that one is rejected but stays in the table |
| `Bridges.ConsistentIffClean` | src/network/websocketBridge.js:258-331 | after a run the table is consistent if and only if no request made while connected had a payload without a JSON form; once broken it is never mended |
| `Bridges.ExactlyOnce` | src/network/websocketBridge.js:228-341 | over any such run numbers are strictly increasing, each request is settled at most once and for good, a settled one is out of the table without a timer, and an unsettled one has a live timer |
| `Bridges.EveryRequestSettles` | src/network/websocketBridge.js:267-275 | once the timers have fired, in any order, every request is settled and the table is empty |
| `Bridges.NetworkBridge.SendAndWait` | src/network/websocketBridge.js:258-331 | the object changes as one step of the model: number reserved, handler and timer in place before sending, undone when sending throws |
| `Bridges.NetworkBridge.Send` | src/network/websocketBridge.js:228-253 | takes the next number and waits for nothing; refused while not connected |
| `Bridges.NetworkBridge.HandleMessage` | src/network/websocketBridge.js:120-174 | a successful reply resolves and a failed one rejects exactly the request waiting under its number; duplicate, late and "no opponent" replies settle nothing |
| `Bridges.ReplySettles` | src/network/websocketBridge.js:288-294 | the same of the model's step |
| `Bridges.ResolvedIffAnswered` | src/network/websocketBridge.js:163-174 | over any run a request is resolved if and only if a successful reply to it arrived while it stood in the table; every other settlement is a rejection |
| `Bridges.TimerSettles` | src/network/websocketBridge.js:267-275 | a timer rejects its own request only |
| `Bridges.RequestMeans` | src/network/websocketBridge.js:258-330 | what a request leaves behind when sent and when the send throws |
| `Bridges.DisconnectLeavesTimers` | src/network/websocketBridge.js:723-731 | after a disconnect every reply comes too late and the timers remain |
| `Bridges.NetworkBridge.TimerFired` | src/network/websocketBridge.js:267-275 | a live timer rejects its own request and takes it out of the table |
| `Bridges.NetworkBridge.OnClose` | src/network/websocketBridge.js:54-60 | a closed socket rejects everything that waits |
| `Bridges.NetworkBridge.RejectAllPending` | src/network/websocketBridge.js:334-341 | rejects every entry in insertion order and leaves the table empty |
| `Bridges.NetworkBridge.Disconnect` | src/network/websocketBridge.js:723-731 | empties the table but leaves the timers, which settle what was waiting |
| `Escaping.RoundTrip` | network/c_server/src/protocol.c:166-204 | unescaping what was escaped gives the source; a strict reader of section 7 of RFC 8259 accepts it if and only if the source holds no control character beyond those the escaper knows |
| `Escaping.EscapeMeans` | network/c_server/src/protocol.c:176-199 | which characters are written in two, the tab by json_escape only, and that each pair stands for its character |
| `Escaping.EscapedIsOneLine` | network/c_server/src/protocol.c:166-204 | escaped text holds no newline and no new NUL and is at most twice as long |
| `Escaping.CutProperties` | network/c_server/src/handlers.c:29-60 | where the bounded escaper stops is unique, wastes at most one byte, splits no escape, and is the end of the source if and only if the text before its last character leaves two bytes; an escaped length of size - 2 always fits |
| `Escaping.EscapeJsonString` | network/c_server/src/handlers.c:23-61 | the buffer never overflows and holds, NUL-terminated, the escape of exactly the prefix up to that cut |
| `Escaping.JsonEscape` | network/c_server/src/protocol.c:166-204 | an allocation of twice the length plus one suffices and holds the escape of the whole source; no source, no result |

## Left out

- DOM, rendering, board flipping, sounds, listeners: only their effect on board, turn and selection is modelled. The colour written in the page for a piece is taken to be the colour of the piece on the board.
- `parsePosition` and the text of the opening: the opening is modelled as the list of placements the text spells out.
- Move history, `turnCnt`, events to the page: nothing in the rules reads them.
- Protocol.RunAgreesIffSound: one match, find_match games, messages only from the two players, reliable FIFO channels. Rejoining after a reload, a player who goes to watch another match meanwhile, and the colours of room and rematch games (which send `color`, not `your_color`) are not in it.
- Protocol.EndIsToldExactly: says nothing after a sweep that finds more than a hundred timeouts at once and tells only the first hundred; the clients of the others are not told, as Protocol.EndingReachesBoth shows.
- Protocol.RunsAgree: after an action that sets a replica back nothing is claimed of the rest of the run. After game_end a client plays on locally, and its local moves are not logged.
- Network.NetworkGameController.HandleOpponentMove: a write to a column outside the nine of an existing row leaves an extra entry in the script's array, which no loop reads; the model does not keep it.
- Matches: each message reads the clock once, while the code reads it several times within one message. Subtraction from a clock is unbounded (signed overflow has no defined result in C).
- MatchStores.TableHistory: one lifetime of the server; shutdown and the draw offer flags are not modelled.
- MatchStores.MatchStore.MatchGetPendingTimeouts: forgets all but the first hundred timeouts, as the code does, so not every timeout is announced; their outcomes are recorded all the same.
- Servers.Server.FindMatch: a failed look-up in the database is not modelled. Which notification failed is one bit.
- Servers.Server.HandleResign: storing the match history is left out. The users' table holds numbers, ratings and counts only; names, and the refusal of a name already taken, are not part of this model.
- Ratings.ChangesBalance: floating point is modelled by reals and the expected score by any number strictly between 0 and 1, so rounding errors of `pow` and of the products are not captured.
- Framing: bytes are characters, streams hold no NUL, and a character cut in two by ws-bridge.js is not captured. `trim` is any function that keeps the empty string empty. Sending to a closed WebSocket is left out.
- Bridges: what a settled promise carries, the match search timer, tokens and listeners are left out.
- Escaping.RoundTrip: the reader knows the two-character escapes only, since neither escaper writes any other.
- Databases, passwords, tokens, sessions, accounts, leaderboard, chat, rooms, challenges and rematches, spectators of a match: foreign calls, or members without a hard property.
- `record.js`, `moveNotation.js`, `validators.js`, `errorHandler.js`, `loadingManager.js`: nothing hard to state.
