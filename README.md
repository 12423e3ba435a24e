# Chess match state machine

A Dafny model of the `Game` class of the chess server (`server/game.py`). A
`Game` is one match. It holds the position, two optional clocks, the player
in each seat, resignations, the draw-offer handshake, a ply counter that the
server also uses as the game's version number, and a history of extended
move descriptions, one per accepted move. From this state it derives the
result (`1-0`, `0-1`, `1/2-1/2` or `*`), whether the game is in progress,
and why it ended.

The project has six modules:

- `Wrappers` (`wrappers.dfy`): `Option` and `Result`.
- `ChessRules` (`chess_rules.dfy`): the chess library as the game uses it.
  - The library is an oracle: a record of total functions that parse SAN
    (standard algebraic notation), look at squares, classify moves and
    report draw and win conditions.
  - A position is the stack of moves played from the initial position.
  - The side to move and the full-move number come from the stack length.
  - `Sound` collects the facts about accepted moves that the descriptor
    code relies on. It promises nothing about a move's origin square,
    because the library accepts the null move whatever stands on a1.
- `MoveDescriptors` (`move_descriptors.dfy`): the extended move description,
  as a function of the position before the move.
- `GameSpec` (`game_spec.dfy`): the game's state as a value.
  - The derived views (`result`, `in_progress`, `game_over`, `free_slots`,
    `turn`) are functions of that value.
  - Every mutator has a transition function.
  - `Inv` is the reachable-state invariant.
  - The lemmas state what each operation promises.
- `GameRecords` (`game_records.dfy`): `to_dict` and the replay done by
  `from_dict`, and the save-and-restore round trip.
- `GameImpl` (`game_impl.dfy`): `class Game`.
  - It has the source's fields.
  - Its methods update those fields in place.
  - Each method is proved to reach the state given by the matching
    `GameSpec` function (for `from_dict`, the `GameRecords` one).
  - `Valid()` means the library is sound and the invariant holds. The
    constructor, `Create` and `FromCreateGameSchema` establish it. The
    mutators (`AddPlayer`, `TimeDelta`, `Resign`, `OfferDraw`,
    `AcceptDraw`, `DeclineDraw`, `Move`) keep it, and so does
    `SaveAndLoad`. `FromDict`, `Load` and `ReplayHistory` take a record as
    it comes and do not establish it.

`game_over` in the code checks its reasons in this order: rules of chess,
then resignation, then draw by agreement, then time. The comment before the
time check (`server/game.py:224`) says time should come first. The model
follows the code. `GameSpec.OrderOfReasonsUnobservable` proves that the two
orders give the same answer whenever at most one way of ending holds. `Inv`
guarantees at most one way of ending in every game built by the constructor or
`from_create_game_schema`, changed by the mutators (with `move` corrected as under Findings), or restored by
`from_dict` from its own `to_dict` (`GameImpl.SaveAndLoad`). A record given
to `from_dict` from elsewhere may break `Inv` (both sides resigned with both
clocks at zero, say), and there the two orders can differ.

## Model

| member | source | states |
|---|---|---|
| ChessRules.Opposite | server/game.py:304-309 | `_invert` always gives the other side |
| ChessRules.Turn | server/game.py:135-138 | White is to move exactly when an even number of plies has been played |
| ChessRules.FullmoveNumber | server/game.py:115-118 | the full-move number starts at 1 and goes up by one exactly after a Black move |
| ChessRules.SquareName | server/game.py:257-258 | a square's name is a file letter a-h followed by a rank digit 1-8 |
| ChessRules.SquareNameInjective | server/game.py:257-258 | distinct squares get distinct names, so `from` and `to` identify the squares |
| ChessRules.Symbol | server/game.py:256 | a piece is recorded as a lower-case letter |
| ChessRules.WinFor | server/game.py:7-11 | a win is `1-0` for White and `0-1` for Black, never a draw or `*` |
| ChessRules.BaseResult | server/game.py:158-160 | when draws are claimed, the library's result is `*` exactly when no end condition holds; on checkmate the side not to move wins; any other end condition (stalemate, repetition, insufficient material, the 50- or 75-move rule) is a draw |
| MoveDescriptors.Describe | server/game.py:231-302 | the description records the SAN, the side that moved, the ply count after the move and the move number before it. It records the moving piece and the names of the from and to squares. Promotion is flagged exactly when the move promotes, with the piece. Capture, castling and en-passant flags come from the library. An en-passant capture records a pawn and the square one rank behind the destination, seen from the mover. An ordinary capture records the piece on the destination. Castling side is `k` exactly when the king moves toward the h-file and `q` exactly when it moves toward the a-file |
| GameSpec.NewGame | server/game.py:55-57 | creation fails exactly on negative time controls, with the ValueError |
| GameSpec.NewGameInv | server/game.py:42-74 | a new game satisfies the invariant and has two free slots. It is in progress unless created with zero seconds, in which case it is already drawn on time |
| GameSpec.FreeSlots | server/game.py:140-143 | at most two free slots: none exactly when both seats are taken, two exactly when both are empty |
| GameSpec.GameResult | server/game.py:155-186 | the `result` view; its contract is stated by `GameSpec.ResultPriority`, `GameSpec.InProgressIff` and `GameSpec.GameOverAgreesWithResult` |
| GameSpec.InProgress | server/game.py:188-191 | the `in_progress` view, true exactly when `result` is `*`; its contract is stated by `GameSpec.InProgressIff` |
| GameSpec.InProgressIff | server/game.py:188-191 | the game is in progress exactly when no rules end, resignation, accepted draw or expired clock holds |
| GameSpec.ResultPriority | server/game.py:155-186 | later overrides win: both clocks at zero give a draw, then a single expired clock, then an accepted draw, then Black's resignation, then White's, then the library's result |
| GameSpec.GameOver | server/game.py:193-229 | the `game_over` view; its contract is stated by `GameSpec.GameOverAgreesWithResult` and `GameSpec.GameOverPriority` |
| GameSpec.RulesReason | server/game.py:198-214 | a rules-based reason exists exactly when the library reports the game over |
| GameSpec.RulesReasonIsLastFlag | server/game.py:199-212 | of several rules conditions that hold at once, the reason reported is the last one in the fixed list |
| GameSpec.GameOverAgreesWithResult | server/game.py:155-229 | `game_over` says the game is over exactly when `result` is not `*`, and gives a reason exactly then |
| GameSpec.GameOverPriority | server/game.py:193-229 | the first reason that holds, in code order, is reported; `Time` is reported only when no other reason holds |
| GameSpec.OrderOfReasonsUnobservable | server/game.py:224-226 | with at most one way of ending in effect, checking time first gives the same game-over status |
| GameSpec.UntimedNeverTimesOut | server/game.py:224-226 | an untimed game never ends on time, and its result ignores the clocks |
| GameSpec.HistoryNumbering | server/game.py:253-255 | history entries are numbered 1, 2, 3, and so on. Sides alternate starting with White. Move numbers start at 1 and go up only after Black's move. There is one entry per ply |
| GameSpec.AddPlayer | server/game.py:352-369 | the `add_player` transition; its contract is stated by `GameSpec.AddPlayerSpec` and `GameSpec.AddPlayerPreservesInv` |
| GameSpec.AddPlayerSpec | server/game.py:352-369 | `add_player` rejects an id already seated on the other side, then an occupied seat. Otherwise it fills exactly that seat, leaving one free slot fewer |
| GameSpec.AddPlayerPreservesInv | server/game.py:352-369 | `add_player` keeps the invariant; the two seats never hold the same id |
| GameSpec.TimeDelta | server/game.py:371-409 | the `time_delta` transition; its contract is stated by `GameSpec.TimeDeltaSpec` and `GameSpec.TimeDeltaPreservesInv` |
| GameSpec.TimeDeltaSpec | server/game.py:371-409 | `time_delta` does nothing on an untimed or finished game or on a clock at zero. Otherwise it adds the delta to that side's clock, stopping at zero, and changes nothing else |
| GameSpec.TimeDeltaPreservesInv | server/game.py:371-409 | `time_delta` keeps the invariant; clocks never go negative |
| GameSpec.Resign | server/game.py:411-435 | the `resign` transition; its contract is stated by `GameSpec.ResignSpec` and `GameSpec.ResignPreservesInv` |
| GameSpec.ResignSpec | server/game.py:411-435 | `resign` does nothing on a finished game or a side already resigned. Otherwise it marks the side, which ends the game as a win for the opponent. Resignations are never undone |
| GameSpec.ResignPreservesInv | server/game.py:411-435 | `resign` keeps the invariant |
| GameSpec.AcceptDraw | server/game.py:465-487 | the `accept_draw` transition; its contract is stated by `GameSpec.AcceptDrawSpec` and `GameSpec.AcceptDrawPreservesInv` |
| GameSpec.AcceptDrawSpec | server/game.py:465-487 | `accept_draw` accepts only a standing opponent offer in a game in progress; the game is then drawn by agreement |
| GameSpec.AcceptDrawPreservesInv | server/game.py:465-487 | `accept_draw` keeps the invariant |
| GameSpec.DeclineDraw | server/game.py:489-515 | the `decline_draw` transition; its contract is stated by `GameSpec.DeclineDrawSpec` and `GameSpec.DeclineDrawPreservesInv` |
| GameSpec.DeclineDrawSpec | server/game.py:489-515 | `decline_draw` withdraws only a standing, unaccepted opponent offer in a game in progress, and never ends the game |
| GameSpec.DeclineDrawPreservesInv | server/game.py:489-515 | `decline_draw` keeps the invariant |
| GameSpec.OfferDraw | server/game.py:437-463 | the `offer_draw` transition; its contract is stated by `GameSpec.OfferDrawSpec`, `GameSpec.OfferDrawPreservesInv` and `GameSpec.MutualOffersDraw` |
| GameSpec.OfferDrawSpec | server/game.py:437-463 | `offer_draw` does nothing on a finished game or a repeated offer. A first offer is recorded and play continues. An offer made while the opponent's offer stands accepts it, and the game is drawn |
| GameSpec.OfferDrawPreservesInv | server/game.py:437-463 | `offer_draw` keeps the invariant |
| GameSpec.MutualOffersDraw | server/game.py:437-487 | White offering and then Black offering ends the game in a draw by agreement |
| GameSpec.MoveStep | server/game.py:311-350 | the `move` transition with its raised errors; its contract is stated by `GameSpec.MoveFailure`, `GameSpec.MoveSuccess`, `GameSpec.MoveClearsOffers` and `GameSpec.MovePreservesInv` |
| GameSpec.EmptyOrigin | server/game.py:332 | the library accepts the SAN as a move with nothing on its origin square (the null move once a1 is empty) |
| GameSpec.MoveFailure | server/game.py:322-332 | `move` fails on a finished game, then on a side to move without a player, then on a SAN the library rejects or that names a move with an empty origin, and succeeds otherwise |
| GameSpec.MoveSuccess | server/game.py:311-350 | a successful move appends the parsed move and exactly one history entry, numbered with the new ply count, for the side that was to move. Only the board, the ply count, the history and the draw offers change |
| GameSpec.MoveClearsOffers | server/game.py:337-339 | after a move in a game that goes on, neither side has an offer standing; a move that ends the game leaves the offers as they were |
| GameSpec.MovePreservesInv | server/game.py:311-350 | `move` keeps the invariant |
| GameSpec.PlayedMovePreservesInv | server/game.py:332-348 | recording a legal move in a game in progress keeps the invariant |
| GameSpec.HistoryAppend | server/game.py:344-348 | appending a legal move and its description keeps the history matched to the board |
| GameSpec.MoveAsWritten | server/game.py:311-350 | `move` as written, including a move with an empty origin: it raises after the ply has been counted and the offers declined, with the board and history as before |
| GameSpec.MoveAsWrittenAgrees | server/game.py:311-350 | away from an empty origin, `move` as written and the corrected `GameSpec.MoveStep` give the same error with nothing changed, or the same state and description |
| GameSpec.MoveAsWrittenDesyncs | server/game.py:332-339 | on a move with an empty origin in a game in progress, `move` as written raises and leaves the ply count one ahead of the history, so the invariant breaks; the corrected `GameSpec.MoveStep` rejects it and changes nothing |
| GameSpec.NullMoveExample | server/game.py:332-339 | a concrete sound library and valid game on which the null move leaves one ply and no history entry |
| GameSpec.FromCreateGameSchema | server/game.py:543-556 | the game `from_create_game_schema` builds; its contract is stated by `GameSpec.FromCreateGameSchemaSpec` |
| GameSpec.FromCreateGameSchemaSpec | server/game.py:543-556 | creation from a request fails exactly on negative time or the same person requested for both seats. Otherwise each seat holds its requested player, or stays free for `OPEN` and `AI`, and the clocks start full |
| GameRecords.ToDict | server/game.py:594-619 | the dictionary reports the game in progress exactly when it does not report it over, at most two free slots and a move number of at least 1 |
| GameRecords.Replay | server/game.py:582-584 | a replay that succeeds yields one move per history entry |
| GameRecords.ReplayMatchingHistory | server/game.py:582-584 | replaying the SAN texts of a game's own history rebuilds its board, prefix by prefix |
| GameRecords.ReplayFailurePersists | server/game.py:582-584 | once a prefix of the history fails to replay, the whole history fails |
| GameRecords.Restore | server/game.py:558-592 | `from_dict` fails exactly when the recorded history does not replay; otherwise the board has one move per history entry and the history, ply count, players, clocks and draw offers are those of the record. `GameRecords.RestoreToDict` states the round trip |
| GameRecords.RestoreToDict | server/game.py:558-619 | restoring the dictionary of a game gives back exactly that game, with the same result and game-over status |
| GameImpl.Game.constructor | server/game.py:42-74 | the new object holds the state of a new game and satisfies the invariant |
| GameImpl.Game.Create | server/game.py:42-74 | construction raises the ValueError on negative time; otherwise it gives a fresh game in the new-game state |
| GameImpl.Game.AddPlayer | server/game.py:352-369 | the method returns the error the source raises and leaves the state alone, or fills the seat as `GameSpec.AddPlayer` says; the invariant is kept |
| GameImpl.Game.TimeDelta | server/game.py:371-409 | the clocks change as `GameSpec.TimeDelta` says; the invariant is kept |
| GameImpl.Game.Resign | server/game.py:411-435 | the state changes as `GameSpec.Resign` says; the invariant is kept |
| GameImpl.Game.OfferDraw | server/game.py:437-463 | the state changes as `GameSpec.OfferDraw` says, calling `AcceptDraw` on crossing offers; the invariant is kept |
| GameImpl.Game.AcceptDraw | server/game.py:465-487 | the state changes as `GameSpec.AcceptDraw` says; the invariant is kept |
| GameImpl.Game.DeclineDraw | server/game.py:489-515 | the state changes as `GameSpec.DeclineDraw` says; the invariant is kept |
| GameImpl.Game.Move | server/game.py:311-350 | the method returns the error `GameSpec.MoveStep` gives and leaves the state alone, or returns the description and reaches the state `GameSpec.MoveStep` gives; the invariant is kept |
| GameImpl.Game.Play | server/game.py:332-348 | the push, the ply count, the declines and the recorded description together reach the successful `move` outcome |
| GameImpl.Game.DeclineOffers | server/game.py:337-339 | the loop over both sides has White decline and then Black |
| GameImpl.Game.FromCreateGameSchema | server/game.py:543-556 | the method fails as `GameSpec.FromCreateGameSchema` does, or gives a fresh valid game in the state it describes |
| GameImpl.Game.FromDict | server/game.py:558-592 | the method fails exactly when the recorded history does not replay; otherwise it gives a fresh game in the restored state |
| GameImpl.Game.Load | server/game.py:574-590 | the fields are copied from the record and the board is rebuilt by replaying the history |
| GameImpl.Game.ReplayHistory | server/game.py:582-584 | the loop appends every entry and plays its SAN on the board, failing exactly when the replay fails |
| GameImpl.SaveAndLoad | server/game.py:558-619 | saving a valid game with `to_dict` and loading it with `from_dict` gives a fresh valid game in the same state |

## Left out

- The chess library is not modelled. It is an oracle, the `Rules` record. Its behaviour is assumed in two ways:
  - through `Sound`: for an accepted move, an ordinary capture has a piece on its destination, an en-passant capture lands on the en-passant square of the sixth (third) rank, and castling changes the king's file; and the initial position is not over;
  - through the shape of `Rules`: `result(claim_draw=True)` and `is_game_over(claim_draw=True)` are taken to be the functions of the seven `RuleFlags` that `ChessRules.BaseResult` and `GameSpec.RulesReason` give.
- A position is the stack of moves played from the standard initial position. That is the only way the class builds a board, since both the constructor and `from_dict` start from `chess.Board()`.
- `fen`, `pgn` and `__str__` (`server/game.py:120-128`, `517-540`) are text renderings done by the library. They are not modelled, and the `fen` and `pgn` keys of `to_dict` are left out of `GameRecord`.
- The plain getters (`id`, `creator`, `board`, `players`, `time_controls`, `remaining_time`, `ply_count`, `history`, `resigned`, `draw_offers`) are the fields of `State()`.
- The TypeErrors on arguments of the wrong Python type cannot arise with Dafny's types.
- The ValueErrors on a side other than `'w'` or `'b'` cannot arise either, because `Side` has two values.
- `_construct_move_description` pops the move, inspects the earlier position and pushes the move back. The model describes the move from the position before it, so its check that the move is on top of the stack cannot fail and is not modelled.
- GameImpl.Game.constructor: requires non-negative time controls. The ValueError is modelled by `GameImpl.Game.Create` and `GameSpec.NewGame`.
- GameImpl.Game.TimeDelta: requires the clock it changes to be present when the game is timed and in progress. Only then does the source read that clock, and a missing one makes it fail with a TypeError, which only a record given to `from_dict` can provoke.
- GameImpl.Game.Move: requires a sound rules library, which the move description needs. It follows the corrected `GameSpec.MoveStep`, so a move with an empty origin is rejected with nothing changed. The source instead raises an AttributeError after changing the ply count and the offers; `GameSpec.MoveAsWritten` models that (see Findings).
- GameSpec.MoveStep: rejects a move with an empty origin as an illegal move, where the source raises after a partial update (see Findings).
- GameSpec.MoveFailure: states the failures of the corrected `GameSpec.MoveStep`; the source's failure after the push is stated by `GameSpec.MoveAsWrittenDesyncs`.
- `from_dict`'s KeyError on missing keys is not modelled, because a `GameRecord` always has every key.
- `from_dict` keeps references to the dictionaries of its input, while the model copies values. Aliasing between a restored game and its record is therefore not captured.
- A record whose history fails to replay makes `from_dict` raise the library's ValueError. The model returns a failure instead.
- `from_create_game_schema` assumes input already validated by the creation schema (`server/schemas/game.py`), and the conversion `int(...)` of the time is taken as done. The schema is not part of this model.
- Real time is not modelled. The seconds passed to `time_delta` come from the server, and clocks are changed only through it.
- The web server, its routes, the board-controller polling protocol and the computer opponent (`server/server.py`, `server/schemas/controller.py`, `server/sunfish_ai.py`) are not part of this model.

## Findings

| source | as written | input that shows it | evidently intended | confidence | as-written member | corrected member |
|---|---|---|---|---|---|---|
| server/game.py:332-339 | `move` pushes whatever `push_san` accepts, counts the ply and clears the offers before describing the move. The library accepts the null move (`--`, `Z0`, `0000`, `@@@@`, a1 to a1) whatever stands on a1. With a1 empty, `_construct_move_description` pops the move and fails on the missing piece (AttributeError at server/game.py:256). The game is left with `ply_count == len(history) + 1`, the board unchanged and the offers cleared. | 1. a4 e5 2. Ra3 then `--` for Black | a move that cannot be described is rejected before anything changes, so `ply_count` always equals the length of the history | not executed; medium | GameSpec.MoveAsWritten, GameSpec.MoveAsWrittenDesyncs, GameSpec.NullMoveExample | GameSpec.MoveStep, GameSpec.MovePreservesInv |
