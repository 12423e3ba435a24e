/** The chess rules library as the game sees it.

    The game never inspects board geometry itself: it asks the library to
    parse and play a move given in standard algebraic notation, to look at
    the pieces of a position, and to report the draw and win conditions.
    Here the library is an oracle, a record of total functions over the
    position. Every game starts from the standard initial position, so a
    position is identified by the stack of moves played from it. */
module ChessRules {
  import opened Wrappers

  /** The two sides, written 'w' and 'b' by the game. */
  datatype Side = White | Black

  /** The other side (the game's `_invert`). */
  function Opposite(side: Side): (other: Side)
    ensures other != side
  {
    if side == White then Black else White
  }

  /** Squares are numbered a1 = 0, b1 = 1, ..., h8 = 63. */
  type Square = sq: int | 0 <= sq < 64

  function File(sq: Square): (f: int)
    ensures 0 <= f < 8
  {
    sq % 8
  }

  function Rank(sq: Square): (r: int)
    ensures 0 <= r < 8
  {
    sq / 8
  }

  /** The square on file `f` and rank `r`. */
  function SquareAt(f: int, r: int): (sq: Square)
    requires 0 <= f < 8 && 0 <= r < 8
    ensures File(sq) == f && Rank(sq) == r
  {
    8 * r + f
  }

  /** Algebraic name of a square, such as "e4". */
  function SquareName(sq: Square): (name: string)
    ensures |name| == 2
    ensures 'a' <= name[0] <= 'h' && '1' <= name[1] <= '8'
  {
    [(('a' as int) + File(sq)) as char, (('1' as int) + Rank(sq)) as char]
  }

  /** Distinct squares have distinct names. */
  lemma SquareNameInjective(a: Square, b: Square)
    requires SquareName(a) == SquareName(b)
    ensures a == b
  {
  }

  datatype PieceType = Pawn | Knight | Bishop | Rook | Queen | King

  datatype Piece = Piece(kind: PieceType, color: Side)

  /** The lower-case letter of a piece kind: what the game stores after
      lower-casing the library's piece symbol. */
  function Symbol(kind: PieceType): (c: char)
    ensures 'a' <= c <= 'z'
  {
    match kind
    case Pawn => 'p'
    case Knight => 'n'
    case Bishop => 'b'
    case Rook => 'r'
    case Queen => 'q'
    case King => 'k'
  }

  /** Distinct kinds have distinct letters, so a stored letter names one kind. */
  lemma SymbolInjective(a: PieceType, b: PieceType)
    requires Symbol(a) == Symbol(b)
    ensures a == b
  {
  }

  /** A move: origin, destination and optional promotion piece. */
  datatype Move = Move(from: Square, to: Square, promotion: Option<PieceType>)

  /** The draw and win conditions the game asks the library about. */
  datatype RuleFlags = RuleFlags(
    threefold: bool,             // a three-fold repetition can be claimed
    fiftyMoves: bool,            // the fifty-move rule can be claimed
    seventyFiveMoves: bool,      // the seventy-five-move rule applies
    insufficientMaterial: bool,
    checkmate: bool,
    stalemate: bool,
    fivefold: bool)              // a five-fold repetition occurred

  /** Whether the library considers the game over when draws are claimed. */
  predicate AnyFlag(f: RuleFlags) {
    f.threefold || f.fiftyMoves || f.seventyFiveMoves || f.insufficientMaterial
    || f.checkmate || f.stalemate || f.fivefold
  }

  /** The rules library. Each function takes the stack of moves that leads
      from the initial position to the position asked about. */
  datatype Rules = Rules(
    parseSan: (seq<Move>, string) -> Option<Move>,   // the move a SAN string denotes, if legal
    pieceAt: (seq<Move>, Square) -> Option<Piece>,
    isCapture: (seq<Move>, Move) -> bool,
    isEnPassant: (seq<Move>, Move) -> bool,
    isCastling: (seq<Move>, Move) -> bool,
    epSquare: seq<Move> -> Option<Square>,          // the en-passant target square, if any
    flags: seq<Move> -> RuleFlags)

  /** The side to move: White after an even number of plies. */
  function Turn(board: seq<Move>): (side: Side)
    ensures side == White <==> |board| % 2 == 0
  {
    if |board| % 2 == 0 then White else Black
  }

  /** The full-move number: 1 at the start, one more after each Black move. */
  function FullmoveNumber(board: seq<Move>): (n: int)
    ensures n >= 1
    ensures board != [] ==> n == FullmoveNumber(board[..|board| - 1]) + (if Turn(board) == White then 1 else 0)
  {
    1 + |board| / 2
  }

  /** The library's castling-side tests: the king moves towards the h-file
      on the king side and towards the a-file on the queen side. */
  predicate IsKingsideCastling(r: Rules, board: seq<Move>, m: Move) {
    r.isCastling(board, m) && File(m.to) > File(m.from)
  }

  predicate IsQueensideCastling(r: Rules, board: seq<Move>, m: Move) {
    r.isCastling(board, m) && File(m.to) < File(m.from)
  }

  /** The rank (0-based) an en-passant capture of `mover` lands on. */
  function EnPassantRank(mover: Side): int {
    if mover == White then 5 else 2
  }

  /** What the library guarantees of every move it accepts in a position:
      an ordinary capture finds a piece on the destination; an en-passant
      move is a capture onto the en-passant target on the sixth rank (third
      for Black); a castling king changes file. Nothing is promised about
      the origin square: the null move (SAN "--", "Z0", "0000" or "@@@@",
      from a1 to a1) is accepted whatever stands on a1. */
  ghost predicate AcceptedMoveFacts(r: Rules, board: seq<Move>, m: Move) {
    && (r.isCapture(board, m) && !r.isEnPassant(board, m) ==> r.pieceAt(board, m.to).Some?)
    && (r.isEnPassant(board, m) ==>
          r.isCapture(board, m) && r.epSquare(board) == Some(m.to)
          && Rank(m.to) == EnPassantRank(Turn(board)))
    && (r.isCastling(board, m) ==> File(m.from) != File(m.to))
  }

  /** An accepted move that also has a piece on its origin: the moves the
      game can describe. */
  ghost predicate LegalMoveFacts(r: Rules, board: seq<Move>, m: Move) {
    r.pieceAt(board, m.from).Some? && AcceptedMoveFacts(r, board, m)
  }

  /** A rules library that behaves like chess: every move it accepts has the
      facts above, and the initial position is not over. */
  ghost predicate Sound(r: Rules) {
    && (forall board, san | r.parseSan(board, san).Some? ::
          AcceptedMoveFacts(r, board, r.parseSan(board, san).value))
    && !AnyFlag(r.flags([]))
  }

  /** A game result as the library writes it. */
  datatype Score = WhiteWins | BlackWins | Drawn | Unfinished {
    function Text(): string {
      match this
      case WhiteWins => "1-0"
      case BlackWins => "0-1"
      case Drawn => "1/2-1/2"
      case Unfinished => "*"
    }
  }

  /** The score of a win for `side`. */
  function WinFor(side: Side): (s: Score)
    ensures s != Drawn && s != Unfinished
    ensures s == WhiteWins <==> side == White
  {
    if side == White then WhiteWins else BlackWins
  }

  /** The library's result when draws are claimed: the side not to move has
      been mated, any other flagged condition is a draw. */
  function BaseResult(r: Rules, board: seq<Move>): (s: Score)
    ensures s == Unfinished <==> !AnyFlag(r.flags(board))
    ensures r.flags(board).checkmate ==> s == WinFor(Opposite(Turn(board)))
    ensures AnyFlag(r.flags(board)) && !r.flags(board).checkmate ==> s == Drawn
  {
    var f := r.flags(board);
    if f.checkmate then WinFor(Opposite(Turn(board)))
    else if AnyFlag(f) then Drawn
    else Unfinished
  }
}
