/** The `Game` class of server/game.py: the fields the source keeps on the
    object, and the methods that update them in place. Each method is proved
    to leave the object in the state the matching GameSpec function gives;
    the mutators also keep the invariant `Valid()`. The read-only properties
    (`result`, `in_progress`, `game_over`, `free_slots`, `turn`) are the
    GameSpec functions of `State()`. */
module GameImpl {
  import opened Wrappers
  import opened ChessRules
  import opened MoveDescriptors
  import opened GameSpec
  import opened GameRecords

  class Game {
    const rules: Rules
    var id: Option<string>
    var creator: string
    var timeControls: Option<int>
    var remainingTime: PerSide<Option<int>>
    var board: seq<Move>
    var players: PerSide<Option<string>>
    var plies: int
    var history: seq<MoveDescriptor>
    var resigned: PerSide<bool>
    var drawOffers: PerSide<DrawOffer>

    /** The fields as one value. */
    function State(): GameState
      reads this
    {
      GameState(id, creator, timeControls, remainingTime, board, players, plies, history, resigned, drawOffers)
    }

    ghost predicate Valid()
      reads this
    {
      Sound(rules) && Inv(rules, State())
    }

    /** `Game(creator_id, game_id, time_controls)` for non-negative time
        controls; `Create` also covers the negative case. */
    constructor (rules: Rules, creatorId: string, gameId: Option<string>, timeControls: Option<int>)
      requires timeControls.Some? ==> timeControls.value >= 0
      ensures this.rules == rules
      ensures NewGame(creatorId, gameId, timeControls) == Success(State())
      ensures Sound(rules) ==> Valid()
    {
      this.rules := rules;
      creator := creatorId;
      id := gameId;
      this.timeControls := timeControls;
      remainingTime := PerSide(timeControls, timeControls);
      board := [];
      players := PerSide(None, None);
      plies := 0;
      history := [];
      resigned := PerSide(false, false);
      drawOffers := PerSide(DrawOffer(false, false), DrawOffer(false, false));
      new;
      if Sound(rules) {
        NewGameInv(rules, creatorId, gameId, timeControls);
      }
    }

    /** The constructor with its ValueError on negative time controls. */
    static method Create(rules: Rules, creatorId: string, gameId: Option<string>, timeControls: Option<int>)
      returns (g: Result<Game, GameError>)
      ensures g.Failure? ==> NewGame(creatorId, gameId, timeControls) == Failure(g.error)
      ensures g.Success? ==>
                && fresh(g.value) && g.value.rules == rules
                && NewGame(creatorId, gameId, timeControls) == Success(g.value.State())
                && (Sound(rules) ==> g.value.Valid())
    {
      if timeControls.Some? && timeControls.value < 0 {
        return Failure(NegativeTimeControls);
      }
      var game := new Game(rules, creatorId, gameId, timeControls);
      return Success(game);
    }

    /** `add_player`: None on success, the error raised otherwise. */
    method AddPlayer(playerId: string, side: Side) returns (error: Option<GameError>)
      modifies this
      ensures old(Valid()) ==> Valid()
      ensures GameSpec.AddPlayer(old(State()), playerId, side).Success? ==>
                error.None? && State() == GameSpec.AddPlayer(old(State()), playerId, side).value
      ensures GameSpec.AddPlayer(old(State()), playerId, side).Failure? ==>
                error == Some(GameSpec.AddPlayer(old(State()), playerId, side).error) && State() == old(State())
    {
      ghost var s0 := State();
      if players.Get(Opposite(side)) == Some(playerId) {
        return Some(SameIdAsOpponent);
      }
      if players.Get(side).None? {
        players := players.Set(side, Some(playerId));
        if old(Valid()) {
          AddPlayerPreservesInv(rules, s0, playerId, side);
        }
        return None;
      }
      return Some(SlotOccupied);
    }

    /** `time_delta`. */
    method TimeDelta(delta: int, side: Option<Side>)
      requires TouchedClockPresent(rules, State(), side)
      modifies this
      ensures old(Valid()) ==> Valid()
      ensures State() == GameSpec.TimeDelta(rules, old(State()), delta, side)
    {
      if Valid() {
        TimeDeltaPreservesInv(rules, State(), delta, side);
      }
      var who := if side.Some? then side.value else Turn(board);
      if timeControls.None? {
        return;
      }
      if !InProgress(rules, State()) {
        return;
      }
      if remainingTime.Get(who) == Some(0) {
        return;
      }
      var left := remainingTime.Get(who).value;
      if delta < 0 && left + delta < 0 {
        remainingTime := remainingTime.Set(who, Some(0));
        return;
      }
      remainingTime := remainingTime.Set(who, Some(left + delta));
    }

    /** `resign`. */
    method Resign(side: Option<Side>)
      modifies this
      ensures old(Valid()) ==> Valid()
      ensures State() == GameSpec.Resign(rules, old(State()), side)
    {
      if Valid() {
        ResignPreservesInv(rules, State(), side);
      }
      var who := if side.Some? then side.value else Turn(board);
      if !InProgress(rules, State()) {
        return;
      }
      if resigned.Get(who) {
        return;
      }
      resigned := resigned.Set(who, true);
    }

    /** `accept_draw`. It is also called by `OfferDraw`. */
    method AcceptDraw(side: Option<Side>)
      modifies this
      ensures old(Valid()) ==> Valid()
      ensures State() == GameSpec.AcceptDraw(rules, old(State()), side)
    {
      if Valid() {
        AcceptDrawPreservesInv(rules, State(), side);
      }
      var who := if side.Some? then side.value else Turn(board);
      if !InProgress(rules, State()) {
        return;
      }
      if !drawOffers.Get(Opposite(who)).made {
        return;
      }
      drawOffers := drawOffers.Set(Opposite(who), drawOffers.Get(Opposite(who)).(accepted := true));
    }

    /** `decline_draw`. It is also called by `Move`, between pushing the move
        and recording it, where `Valid()` does not hold. */
    method DeclineDraw(side: Option<Side>)
      modifies this
      ensures old(Valid()) ==> Valid()
      ensures State() == GameSpec.DeclineDraw(rules, old(State()), side)
    {
      if Valid() {
        DeclineDrawPreservesInv(rules, State(), side);
      }
      var who := if side.Some? then side.value else Turn(board);
      if !InProgress(rules, State()) {
        return;
      }
      if !drawOffers.Get(Opposite(who)).made {
        return;
      }
      if drawOffers.Get(Opposite(who)).accepted {
        return;
      }
      drawOffers := drawOffers.Set(Opposite(who), drawOffers.Get(Opposite(who)).(made := false));
    }

    /** `offer_draw`. */
    method OfferDraw(side: Option<Side>)
      modifies this
      ensures old(Valid()) ==> Valid()
      ensures State() == GameSpec.OfferDraw(rules, old(State()), side)
    {
      if Valid() {
        OfferDrawPreservesInv(rules, State(), side);
      }
      var who := if side.Some? then side.value else Turn(board);
      if !InProgress(rules, State()) {
        return;
      }
      if drawOffers.Get(who).made {
        return;
      }
      if drawOffers.Get(Opposite(who)).made {
        AcceptDraw(Some(who));
      }
      drawOffers := drawOffers.Set(who, drawOffers.Get(who).(made := true));
    }

    /** `move`: the description of the move, or the error raised. */
    method Move(san: string) returns (result: Result<MoveDescriptor, GameError>)
      requires Sound(rules)
      modifies this
      ensures old(Valid()) ==> Valid()
      ensures MoveStep(rules, old(State()), san).Failure? ==>
                result == Failure(MoveStep(rules, old(State()), san).error) && State() == old(State())
      ensures MoveStep(rules, old(State()), san).Success? ==>
                && result == Success(MoveStep(rules, old(State()), san).value.1)
                && State() == MoveStep(rules, old(State()), san).value.0
    {
      ghost var s0 := State();
      MoveFailure(rules, s0, san);
      if !InProgress(rules, State()) {
        return Failure(GameEnded);
      }
      if players.Get(Turn(board)).None? {
        return Failure(NoPlayer);
      }
      var parsed := rules.parseSan(board, san);
      if parsed.None? || rules.pieceAt(board, parsed.value.from).None? {
        return Failure(IllegalMove);
      }
      var d := Play(san, parsed.value);
      if Inv(rules, s0) {
        MovePreservesInv(rules, s0, san);
      }
      return Success(d);
    }

    /** What `move` does once the checks have passed: push the move, count
        the ply, let both sides decline, describe the move and record it. */
    method Play(san: string, m: Move) returns (d: MoveDescriptor)
      requires Sound(rules) && InProgress(rules, State()) && players.Get(Turn(board)).Some?
      requires rules.parseSan(board, san) == Some(m) && rules.pieceAt(board, m.from).Some?
      modifies this
      ensures MoveStep(rules, old(State()), san) == Success((State(), d))
    {
      ghost var s0 := State();
      MoveFailure(rules, s0, san);
      MoveStepValue(rules, s0, san);
      var before := board;
      board := board + [m];
      plies := plies + 1;
      ghost var pushed := State();
      assert pushed == s0.(board := s0.board + [m], plies := s0.plies + 1);
      DeclineOffers();
      DeclineDrawSpec(rules, pushed, Some(White));
      DeclineDrawSpec(rules, GameSpec.DeclineDraw(rules, pushed, Some(White)), Some(Black));
      assert plies == s0.plies + 1 && history == s0.history;
      d := Describe(rules, before, m, san, plies);
      history := history + [d];
    }

    /** The loop of `move` that calls `decline_draw` for White, then Black. */
    method DeclineOffers()
      modifies this
      ensures State() == GameSpec.DeclineDraw(rules, GameSpec.DeclineDraw(rules, old(State()), Some(White)), Some(Black))
    {
      ghost var s0 := State();
      var sides := BothSides;
      for i := 0 to |sides|
        invariant State() == DeclineFirst(rules, s0, i)
      {
        DeclineDraw(Some(sides[i]));
      }
    }

    /** `from_create_game_schema`. */
    static method FromCreateGameSchema(rules: Rules, input: CreateGameInput, gameId: string)
      returns (g: Result<Game, GameError>)
      requires Sound(rules)
      ensures g.Failure? ==> GameSpec.FromCreateGameSchema(input, gameId) == Failure(g.error)
      ensures g.Success? ==>
                && fresh(g.value) && g.value.rules == rules && g.value.Valid()
                && GameSpec.FromCreateGameSchema(input, gameId) == Success(g.value.State())
    {
      var created := Create(rules, input.creatorId, Some(gameId), Some(input.timePerPlayer));
      if created.Failure? {
        return Failure(created.error);
      }
      var game := created.value;
      if input.player1Id != OpenSlot && input.player1Id != AiSlot {
        var error := game.AddPlayer(input.player1Id, White);
        if error.Some? {
          return Failure(error.value);
        }
      }
      if input.player2Id != OpenSlot && input.player2Id != AiSlot {
        var error := game.AddPlayer(input.player2Id, Black);
        if error.Some? {
          return Failure(error.value);
        }
      }
      return Success(game);
    }

    /** `from_dict`: replays the recorded SAN texts on a fresh board and
        takes every other field from the record. */
    static method FromDict(rules: Rules, rec: GameRecord) returns (g: Result<Game, ()>)
      ensures g.Failure? <==> Restore(rules, rec).None?
      ensures g.Success? ==>
                fresh(g.value) && g.value.rules == rules && Restore(rules, rec) == Some(g.value.State())
    {
      var game := new Game(rules, rec.creator, rec.id, None);
      var ok := game.Load(rec);
      if !ok {
        return Failure(());
      }
      return Success(game);
    }

    /** What `from_dict` does to the game it has just created: a fresh
        board, the players and time controls of the record, the recorded
        moves replayed, then the remaining fields copied. */
    method Load(rec: GameRecord) returns (ok: bool)
      requires id == rec.id && creator == rec.creator && history == []
      modifies this
      ensures ok <==> Restore(rules, rec).Some?
      ensures ok ==> Restore(rules, rec) == Some(State())
    {
      board := [];
      players := rec.players;
      timeControls := rec.timeControls;
      ok := ReplayHistory(rec.history);
      if !ok {
        return;
      }
      remainingTime := rec.remaining;
      plies := rec.plyCount;
      resigned := rec.resigned;
      drawOffers := rec.drawOffers;
    }

    /** The replay loop of `from_dict`: appends each entry to the history and
        plays its SAN text on the board, starting from the initial position;
        false as soon as the library rejects one. */
    method ReplayHistory(entries: seq<MoveDescriptor>) returns (ok: bool)
      requires board == [] && history == []
      modifies this
      ensures ok <==> Replay(rules, entries).Some?
      ensures ok ==> board == Replay(rules, entries).value && history == entries
      ensures id == old(id) && creator == old(creator)
      ensures players == old(players) && timeControls == old(timeControls)
    {
      var i := 0;
      while i < |entries|
        invariant 0 <= i <= |entries|
        invariant id == old(id) && creator == old(creator)
        invariant players == old(players) && timeControls == old(timeControls)
        invariant history == entries[..i]
        invariant Replay(rules, entries[..i]) == Some(board)
      {
        assert entries[..i + 1][..i] == entries[..i];
        assert entries[..i + 1][i] == entries[i];
        history := history + [entries[i]];
        var parsed := rules.parseSan(board, entries[i].san);
        if parsed.None? {
          assert Replay(rules, entries[..i + 1]).None?;
          ReplayFailurePersists(rules, entries, i + 1);
          return false;
        }
        board := board + [parsed.value];
        i := i + 1;
      }
      assert entries[..i] == entries;
      return true;
    }
  }

  /** Saving a game and loading it back gives a game in the same state, with
      the same rules library and the invariant intact. */
  method SaveAndLoad(game: Game) returns (loaded: Game)
    requires game.Valid()
    ensures fresh(loaded) && loaded.Valid()
    ensures loaded.rules == game.rules && loaded.State() == game.State()
  {
    RestoreToDict(game.rules, game.State());
    var record := ToDict(game.rules, game.State());
    var restored := Game.FromDict(game.rules, record);
    loaded := restored.value;
  }
}
