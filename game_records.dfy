/** The dictionary form of a game (`Game.to_dict`) and the reconstruction of
    a game from it (`Game.from_dict`), which replays the recorded SAN moves on
    a fresh board. */
module GameRecords {
  import opened Wrappers
  import opened ChessRules
  import opened MoveDescriptors
  import opened GameSpec

  /** The keys of the dictionary, except the library's FEN and PGN texts. */
  datatype GameRecord = GameRecord(
    id: Option<string>,
    creator: string,
    players: PerSide<Option<string>>,
    freeSlots: nat,
    timeControls: Option<int>,
    remaining: PerSide<Option<int>>,
    resigned: PerSide<bool>,
    drawOffers: PerSide<DrawOffer>,
    inProgress: bool,
    result: Score,
    gameOver: GameOverStatus,
    turn: Side,
    plyCount: int,
    moveCount: int,
    history: seq<MoveDescriptor>)

  function ToDict(r: Rules, s: GameState): (rec: GameRecord)
    ensures rec.inProgress <==> !rec.gameOver.gameOver
    ensures rec.freeSlots <= 2 && rec.moveCount >= 1
  {
    GameOverAgreesWithResult(r, s);
    GameRecord(
      s.id, s.creator, s.players, FreeSlots(s.players), s.timeControls, s.remaining,
      s.resigned, s.drawOffers, InProgress(r, s), GameResult(r, s), GameOver(r, s),
      TurnOf(s), s.plies, FullmoveNumber(s.board), s.history)
  }

  /** The board reached by playing the SAN texts of a history, one after the
      other, from the initial position; None when the library rejects one. */
  function Replay(r: Rules, history: seq<MoveDescriptor>): (board: Option<seq<Move>>)
    ensures board.Some? ==> |board.value| == |history|
    decreases |history|
  {
    if history == [] then Some([])
    else
      match Replay(r, history[..|history| - 1])
      case None => None
      case Some(earlier) =>
        match r.parseSan(earlier, history[|history| - 1].san)
        case None => None
        case Some(m) => Some(earlier + [m])
  }

  /** The game `from_dict` builds, or None when replaying the history fails.
      Every other field is taken from the record as it is. */
  function Restore(r: Rules, rec: GameRecord): (g: Option<GameState>)
    ensures g.Some? <==> Replay(r, rec.history).Some?
    ensures g.Some? ==> && |g.value.board| == |rec.history| && g.value.history == rec.history
                        && g.value.plies == rec.plyCount && g.value.players == rec.players
                        && g.value.remaining == rec.remaining && g.value.drawOffers == rec.drawOffers
  {
    match Replay(r, rec.history)
    case None => None
    case Some(board) =>
      Some(GameState(
        rec.id, rec.creator, rec.timeControls, rec.remaining, board, rec.players,
        rec.plyCount, rec.history, rec.resigned, rec.drawOffers))
  }

  /** Replaying a history that matches a board gives back that board, prefix
      by prefix. */
  lemma {:induction false} ReplayMatchingHistory(r: Rules, board: seq<Move>, history: seq<MoveDescriptor>, k: nat)
    requires SansReplayBoard(r, board, history)
    requires k <= |history|
    ensures Replay(r, history[..k]) == Some(board[..k])
  {
    if k == 0 {
      assert history[..0] == [];
    } else {
      ReplayMatchingHistory(r, board, history, k - 1);
      assert r.parseSan(board[..k - 1], history[k - 1].san) == Some(board[k - 1]);
      assert history[..k][..k - 1] == history[..k - 1];
      assert history[..k][k - 1] == history[k - 1];
      assert board[..k] == board[..k - 1] + [board[k - 1]];
    }
  }

  /** Once a prefix of the history fails to replay, the whole history does. */
  lemma {:induction false} ReplayFailurePersists(r: Rules, history: seq<MoveDescriptor>, k: nat)
    requires k <= |history|
    requires Replay(r, history[..k]).None?
    ensures Replay(r, history).None?
    decreases |history| - k
  {
    if k == |history| {
      assert history[..k] == history;
    } else {
      assert history[..k + 1][..k] == history[..k];
      ReplayFailurePersists(r, history, k + 1);
    }
  }

  /** Round trip: the dictionary of a game restores exactly that game, so
      the moves, clocks, players, offers, resignations and every derived
      view come back unchanged. */
  lemma RestoreToDict(r: Rules, s: GameState)
    requires Inv(r, s)
    ensures Restore(r, ToDict(r, s)) == Some(s)
    ensures GameResult(r, Restore(r, ToDict(r, s)).value) == GameResult(r, s)
    ensures GameOver(r, Restore(r, ToDict(r, s)).value) == GameOver(r, s)
  {
    ReplayMatchingHistory(r, s.board, s.history, |s.history|);
    assert s.history[..|s.history|] == s.history;
    assert s.board[..|s.board|] == s.board;
  }
}
