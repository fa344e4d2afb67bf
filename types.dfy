/**
 * The unified match model (the record types of types.go) and the
 * human-readable rendering of an encoded move.
 */
module Types {
  import opened Wrappers

  /** Go's `[8]int` move array: (from, to) pairs, -1 marks the end. */
  type Move8 = s: seq<int> | |s| == 8 witness [0, 0, 0, 0, 0, 0, 0, 0]

  /** The zero value of a Go `[8]int`. */
  const ZeroMove: Move8 := [0, 0, 0, 0, 0, 0, 0, 0]

  datatype MoveType = Normal | Double | Take | Drop | Resign | SetBoard | SetDice | SetCube | SetCubePos

  /** The string each `MoveType` constant stands for. */
  function Tag(t: MoveType): (s: string)
    ensures s != []
  {
    match t
    case Normal => "move"
    case Double => "double"
    case Take => "take"
    case Drop => "drop"
    case Resign => "resign"
    case SetBoard => "setboard"
    case SetDice => "setdice"
    case SetCube => "setcube"
    case SetCubePos => "setcubepos"
  }

  /** Go's `[2][25]int`: checkers per point (index 24 is the bar), per side. */
  type Board = b: seq<seq<int>> | |b| == 2 && |b[0]| == 25 && |b[1]| == 25
    witness [seq(25, _ => 0), seq(25, _ => 0)]

  const EmptyBoard: Board := [seq(25, _ => 0), seq(25, _ => 0)]

  datatype Position = Position(
    board: Board,
    cubeValue: int,
    cubeOwner: int,
    onRoll: int,
    dice: (int, int),
    score: (int, int),
    matchLength: int,
    crawford: bool)

  datatype MoveOption = MoveOption(
    move: Move8,
    moveString: string,
    equity: real,
    player1WinRate: real,
    player1GammonRate: real,
    player1BackgammonRate: real,
    player2WinRate: real,
    player2GammonRate: real,
    player2BackgammonRate: real,
    analysisDepth: int)

  const EmptyOption := MoveOption(ZeroMove, "", 0.0, 0.0, 0.0, 0.0, 0.0, 0.0, 0.0, 0)

  datatype MoveAnalysis = MoveAnalysis(moves: seq<MoveOption>, selectedMove: int)

  datatype CubeAnalysis = CubeAnalysis(
    player1WinRate: real,
    player1GammonRate: real,
    player1BackgammonRate: real,
    player2WinRate: real,
    player2GammonRate: real,
    player2BackgammonRate: real,
    cubelessEquity: real,
    cubefulNoDouble: real,
    cubefulDoubleTake: real,
    cubefulDoublePass: real,
    tooGoodPoint: real,
    bestAction: string,
    wrongPassTakePercent: real,
    analysisDepth: int)

  const EmptyCubeAnalysis :=
    CubeAnalysis(0.0, 0.0, 0.0, 0.0, 0.0, 0.0, 0.0, 0.0, 0.0, 0.0, 0.0, "", 0.0, 0)

  datatype LuckRating = LuckRating(rating: string, value: real)

  datatype SkillRating = SkillRating(rating: string, error: real)

  datatype MoveRecord = MoveRecord(
    kind: MoveType,
    player: int,
    dice: (int, int),
    move: Move8,
    moveString: string,
    cubeValue: int,
    cubeOwner: int,
    position: Option<Position>,
    analysis: Option<MoveAnalysis>,
    cubeAnalysis: Option<CubeAnalysis>,
    luck: Option<LuckRating>,
    skill: Option<SkillRating>,
    comment: string)

  /** A record of the given kind with every other field at its Go zero value. */
  function NewRecord(kind: MoveType, player: int, comment: string): (mr: MoveRecord)
    ensures mr.kind == kind && mr.player == player && mr.comment == comment
    ensures mr.move == ZeroMove && mr.dice == (0, 0)
  {
    MoveRecord(kind, player, (0, 0), ZeroMove, "", 0, 0, None, None, None, None, None, comment)
  }

  datatype Game = Game(
    gameNumber: int,
    score: (int, int),
    variation: string,
    crawford: bool,
    crawfordGame: bool,
    jacoby: bool,
    cubeEnabled: bool,
    autoDoubles: int,
    winner: int,
    points: int,
    resigned: bool,
    moves: seq<MoveRecord>,
    gameComment: string)

  /** The zero value of a Go `Game`. */
  const EmptyGame := Game(0, (0, 0), "", false, false, false, false, 0, 0, 0, false, [], "")

  datatype MatchMetadata = MatchMetadata(
    player1: string,
    player2: string,
    rating1: string,
    rating2: string,
    matchLength: int,
    event: string,
    round: string,
    place: string,
    date: string,
    annotator: string,
    comment: string,
    application: string)

  const EmptyMetadata := MatchMetadata("", "", "", "", 0, "", "", "", "", "", "", "")

  datatype Match = Match(metadata: MatchMetadata, games: seq<Game>)

  // ---------------------------------------------------------------------------
  // Rendering a move (FormatMove, pointToString)

  /**
   * Go's `string(rune(n))`: n cut to a signed 32-bit rune, then that
   * character, or U+FFFD when the rune is not a Unicode scalar value.
   */
  function RuneString(n: int): (s: string)
    ensures |s| == 1
    ensures 0 <= n < 0xD800 ==> s == [n as char]
  {
    var r := (n + 0x8000_0000) % 0x1_0000_0000 - 0x8000_0000;
    if 0 <= r < 0xD800 || 0xE000 <= r <= 0x10FFFF then [r as char] else ['\U{FFFD}']
  }

  /** `pointToString`: 24 is the bar, 25 is off, anything else the letter offset from 'a'. */
  function PointToString(p: int): string {
    if p == 24 then "bar"
    else if p == 25 then "off"
    else RuneString('a' as int + p)
  }

  /** The board as the given side sees it: side 1 counts points from the other end. */
  function Mirror(p: int, player: int): int {
    if player == 1 then 23 - p else p
  }

  /** The "from/to" text of pair k. */
  function Segment(move: Move8, player: int, k: nat): string
    requires k < 4
  {
    PointToString(Mirror(move[2 * k], player)) + "/" + PointToString(Mirror(move[2 * k + 1], player))
  }

  /** The number of pairs from pair k on that come before the first pair whose from-slot is -1. */
  function PairsFrom(move: Move8, k: nat): (n: nat)
    requires k <= 4
    ensures k <= n <= 4
    decreases 4 - k
  {
    if k == 4 || move[2 * k] == -1 then k else PairsFrom(move, k + 1)
  }

  /** The number of pairs FormatMove renders. */
  function PairCount(move: Move8): (n: nat)
    ensures n <= 4
    ensures n < 4 ==> move[2 * n] == -1
    ensures forall k :: 0 <= k < n ==> move[2 * k] != -1
  {
    PairsFromCount(move, 0);
    PairsFrom(move, 0)
  }

  lemma {:induction false} PairsFromCount(move: Move8, k: nat)
    requires k <= 4
    requires forall j :: 0 <= j < k ==> move[2 * j] != -1
    ensures var n := PairsFrom(move, k);
      (n < 4 ==> move[2 * n] == -1) && forall j :: 0 <= j < n ==> move[2 * j] != -1
    decreases 4 - k
  {
    if k < 4 && move[2 * k] != -1 {
      PairsFromCount(move, k + 1);
    }
  }

  /** Segments 0..n-1 joined by single spaces. */
  function Joined(move: Move8, player: int, n: nat): string
    requires n <= 4
  {
    if n == 0 then ""
    else if n == 1 then Segment(move, player, 0)
    else Joined(move, player, n - 1) + " " + Segment(move, player, n - 1)
  }

  lemma JoinedStep(move: Move8, player: int, k: nat, before: string, after: string)
    requires k < 4 && before == Joined(move, player, k)
    requires after == (if k > 0 then before + " " else before)
      + PointToString(Mirror(move[2 * k], player)) + "/" + PointToString(Mirror(move[2 * k + 1], player))
    ensures after == Joined(move, player, k + 1)
  {
  }

  /** What FormatMove returns. */
  function MoveText(move: Move8, player: int): string {
    if move[0] == -1 then "no move" else Joined(move, player, PairCount(move))
  }

  /** `FormatMove`: one "from/to" segment per pair up to the first -1, at most four. */
  method FormatMove(move: Move8, player: int) returns (result: string)
    ensures result == MoveText(move, player)
  {
    if move[0] == -1 {
      return "no move";
    }
    result := "";
    var i := 0;
    ghost var k := 0;
    while i < 8
      invariant 0 <= k <= 4 && i == 2 * k
      invariant PairsFrom(move, k) == PairsFrom(move, 0)
      invariant result == Joined(move, player, k)
    {
      if move[i] == -1 {
        break;
      }
      ghost var before := result;
      if i > 0 {
        result := result + " ";
      }
      var from := move[i];
      var to := move[i + 1];
      if player == 1 {
        from := 23 - from;
        to := 23 - to;
      }
      var fromStr := PointToString(from);
      var toStr := PointToString(to);
      result := result + fromStr + "/" + toStr;
      JoinedStep(move, player, k, before, result);
      i := i + 2;
      k := k + 1;
    }
  }

  // ---------------------------------------------------------------------------
  // Properties of the rendering

  /** Every rendered segment contains a slash. */
  lemma {:induction false} JoinedHasSlash(move: Move8, player: int, n: nat)
    requires 1 <= n <= 4
    ensures '/' in Joined(move, player, n)
  {
    var seg := Segment(move, player, n - 1);
    var f := PointToString(Mirror(move[2 * (n - 1)], player));
    assert seg[|f|] == '/';
    assert Joined(move, player, n)[|Joined(move, player, n)| - |seg| + |f|] == '/';
  }

  /** The text is "no move" exactly when the first from-slot is -1. */
  lemma NoMoveExactly(move: Move8, player: int)
    ensures MoveText(move, player) == "no move" <==> move[0] == -1
  {
    if move[0] != -1 {
      JoinedHasSlash(move, player, PairCount(move));
      assert '/' !in "no move";
    }
  }

  /** The three kinds of point text: "bar" only for 24, "off" only for 25, one character otherwise. */
  lemma PointToStringKinds(p: int)
    ensures PointToString(p) == "bar" <==> p == 24
    ensures PointToString(p) == "off" <==> p == 25
    ensures p != 24 && p != 25 ==> |PointToString(p)| == 1
    ensures 0 <= p <= 23 ==> PointToString(p) == [('a' as int + p) as char]
  {
  }

  /** Side 1 mirrors before the bar/off check, so its 24 and 25 render as '`' and '_'. */
  lemma PlayerOneBarAndOff()
    ensures MoveText([24, 25, -1, 0, 0, 0, 0, 0], 0) == "bar/off"
    ensures MoveText([24, 25, -1, 0, 0, 0, 0, 0], 1) == "`/_"
  {
    assert PairCount([24, 25, -1, 0, 0, 0, 0, 0]) == 1;
  }

  /** The worked example: {5, 3, -1, ...} for side 0 is "f/d". */
  lemma SimpleMoveText()
    ensures MoveText([5, 3, -1, -1, -1, -1, -1, -1], 0) == "f/d"
  {
    assert PairCount([5, 3, -1, -1, -1, -1, -1, -1]) == 1;
  }
}
