/** The extended move description the game records for every move it
    accepts (`Game._construct_move_description`).

    The source pops the move off the library's move stack, inspects the
    position before the move, and pushes it back. Here the description is a
    function of the position before the move (its move stack) and the move. */
module MoveDescriptors {
  import opened Wrappers
  import opened ChessRules

  datatype PromotionInfo = PromotionInfo(promoted: bool, piece: Option<char>)
  datatype CaptureInfo = CaptureInfo(captured: bool, piece: Option<char>)
  datatype CastleInfo = CastleInfo(castled: bool, side: Option<char>)
  datatype EnPassantInfo = EnPassantInfo(enPassant: bool, square: Option<string>)

  /** One entry of the game history. `plyCount` is the ply count after the
      move and `moveCount` the full-move number before it. */
  datatype MoveDescriptor = MoveDescriptor(
    san: string,
    side: Side,
    plyCount: int,
    moveCount: int,
    piece: char,
    from: string,
    to: string,
    promotion: PromotionInfo,
    capture: CaptureInfo,
    castle: CastleInfo,
    enPassant: EnPassantInfo)

  /** The rank step of a pawn of `side` moving forward. */
  function Forward(side: Side): int {
    if side == White then 1 else -1
  }

  /** The description of move `m` played from the position reached by
      `board`, given its SAN text and the ply count after it. */
  function Describe(r: Rules, board: seq<Move>, m: Move, san: string, plyCount: int): (d: MoveDescriptor)
    requires LegalMoveFacts(r, board, m)
    // who moved, when, and from where to where
    ensures d.san == san && d.plyCount == plyCount
    ensures d.side == Turn(board) && d.moveCount == FullmoveNumber(board)
    ensures d.piece == Symbol(r.pieceAt(board, m.from).value.kind)
    ensures d.from == SquareName(m.from) && d.to == SquareName(m.to)
    // promotion: flagged exactly when the move names a piece, which is recorded
    ensures d.promotion.promoted <==> m.promotion.Some?
    ensures d.promotion.piece == if m.promotion.Some? then Some(Symbol(m.promotion.value)) else None
    // capture: flag from the library; en passant takes a pawn that stands one
    // rank behind the destination, as seen from the mover
    ensures d.capture.captured == r.isCapture(board, m)
    ensures d.enPassant.enPassant == r.isEnPassant(board, m)
    ensures d.enPassant.enPassant ==>
              d.capture.captured && d.capture.piece == Some('p')
              && 0 <= Rank(m.to) - Forward(d.side) < 8
              && d.enPassant.square == Some(SquareName(SquareAt(File(m.to), Rank(m.to) - Forward(d.side))))
    // an ordinary capture records what stood on the destination before the move
    ensures d.capture.captured && !d.enPassant.enPassant ==>
              d.capture.piece == Some(Symbol(r.pieceAt(board, m.to).value.kind))
              && d.enPassant.square == None
    ensures !d.capture.captured ==> d.capture.piece == None && d.enPassant.square == None
    // castling: 'k' when the king heads for the h-file, 'q' for the a-file
    ensures d.castle.castled == r.isCastling(board, m)
    ensures d.castle.castled <==> d.castle.side.Some?
    ensures d.castle.side == Some('k') <==> r.isCastling(board, m) && File(m.to) > File(m.from)
    ensures d.castle.side == Some('q') <==> r.isCastling(board, m) && File(m.to) < File(m.from)
  {
    var side := Turn(board);
    var capture := r.isCapture(board, m);
    var enPassant := r.isEnPassant(board, m);
    var castling := r.isCastling(board, m);
    var promotionPiece := if m.promotion.Some? then Some(Symbol(m.promotion.value)) else None;
    var (capturedPiece, epName) :=
      if !capture then (None, None)
      else if enPassant then
        var down := if side == White then -8 else 8;
        var behind := r.epSquare(board).value + down;
        assert behind == SquareAt(File(m.to), Rank(m.to) - Forward(side));
        (Some('p'), Some(SquareName(behind)))
      else (Some(Symbol(r.pieceAt(board, m.to).value.kind)), None);
    var castleSide :=
      if !castling then None
      else if IsKingsideCastling(r, board, m) then Some('k')
      else if IsQueensideCastling(r, board, m) then Some('q')
      else None;
    MoveDescriptor(
      san,
      side,
      plyCount,
      FullmoveNumber(board),
      Symbol(r.pieceAt(board, m.from).value.kind),
      SquareName(m.from),
      SquareName(m.to),
      PromotionInfo(m.promotion.Some?, promotionPiece),
      CaptureInfo(capture, capturedPiece),
      CastleInfo(castling, castleSide),
      EnPassantInfo(enPassant, epName))
  }
}
