/**
 * The Jellyfish .mat reader of matparser.go: the comment and match-header
 * preamble, then game after game, each a "Game N" header, a score line and
 * the rows of moves up to a "Wins" line.
 *
 * The reader's lines are given as a sequence; `pos` counts the lines the
 * scanner has handed out and `lineNum` is the counter the reader keeps for its
 * error messages.
 */
module MatParser {
  import opened Wrappers
  import Text
  import opened Types
  import opened MatText

  /** The three ways `parse` fails. */
  datatype MatError =
    | NoMatchHeader                                  // "invalid MAT file: no match header found"
    | InvalidScoreLine(lineNum: int, line: string)   // "error parsing game at line N: invalid score line: ..."
    | NoGames                                        // "no games found in MAT file"

  // ---------------------------------------------------------------------------
  // Metadata comments

  /**
   * `parseMetadataComment`: an EventDate tag sets the date as YYYY-MM-DD;
   * otherwise the first of Event, Round, Site, Transcriber present sets the
   * event, round, place or annotator; anything else changes nothing.
   */
  function MetadataComment(md: MatchMetadata, comment: string): (r: MatchMetadata)
    ensures r.player1 == md.player1 && r.player2 == md.player2 && r.matchLength == md.matchLength
  {
    match EventDate(comment)
    case Some((y, m, d)) => md.(date := DateText(y, m, d))
    case None =>
      match MetaTag(comment, "Event")
      case Some(v) => md.(event := v)
      case None =>
        match MetaTag(comment, "Round")
        case Some(v) => md.(round := v)
        case None =>
          match MetaTag(comment, "Site")
          case Some(v) => md.(place := v)
          case None =>
            match MetaTag(comment, "Transcriber")
            case Some(v) => md.(annotator := v)
            case None => md
  }

  // ---------------------------------------------------------------------------
  // One game

  /** The game being read and the player a "Wins" line credits. */
  datatype Play = Play(game: Game, current: int)

  /** The Crawford game: one side one point from the match, the other further away. */
  predicate IsCrawfordGame(score1: int, score2: int, matchLength: int) {
    matchLength > 0
    && ((score1 == matchLength - 1 && score2 < matchLength - 1)
        || (score2 == matchLength - 1 && score1 < matchLength - 1))
  }

  /** The game `parseGame` starts from once the score line is read. */
  function NewMatGame(number: int, score1: int, score2: int, matchLength: int): (g: Game)
    ensures g.moves == [] && g.winner == -1
    ensures !(g.crawford && g.jacoby)
    ensures g.crawfordGame ==> g.crawford
  {
    Game(number, (score1, score2), "Standard", matchLength > 0,
      IsCrawfordGame(score1, score2, matchLength), matchLength == 0, true, 0, -1, 0, false, [], "")
  }

  function AddRecord(g: Game, mr: MoveRecord): Game {
    g.(moves := g.moves + [mr])
  }

  /**
   * One non-empty column of a row, `player` being its index: a double, take
   * or drop, or dice and a move; anything else is ignored. The flag says that
   * the rest of the row is skipped, which only a drop does.
   */
  function Column(part: string, player: int, p: Play): (r: (Play, bool))
    ensures p.game.moves <= r.0.game.moves && |r.0.game.moves| <= |p.game.moves| + 1
    ensures forall k :: |p.game.moves| <= k < |r.0.game.moves| ==> r.0.game.moves[k].player == player
  {
    match Doubles(part)
    case Some(d) =>
      (Play(AddRecord(p.game, NewRecord(Double, player, "").(cubeValue := Text.Atoi(d).value)), player), false)
    case None =>
      if Takes(part) then (Play(AddRecord(p.game, NewRecord(Take, player, "")), player), false)
      else if Drops(part) then
        (Play(AddRecord(p.game, NewRecord(Drop, player, "")).(winner := 1 - player), 1 - player), true)
      else
        match DiceAndMove(part)
        case None => (p, false)
        case Some((c1, c2, m)) =>
          var moveStr := Text.TrimSpace(m);
          var mr := NewRecord(Normal, player, "").(
            dice := (Text.DigitValue(c1), Text.DigitValue(c2)),
            moveString := moveStr,
            move := if moveStr != "" then MatMove(moveStr) else ZeroMove);
          (Play(AddRecord(p.game, mr), player), false)
  }

  /** The columns of a row from column `i` on, empty ones skipped, stopping after a drop. */
  function Row(parts: seq<string>, i: nat, p: Play): (r: Play)
    ensures p.game.moves <= r.game.moves
    ensures forall k :: |p.game.moves| <= k < |r.game.moves| ==> i <= r.game.moves[k].player < |parts|
    ensures forall k, k' :: |p.game.moves| <= k < k' < |r.game.moves| ==> r.game.moves[k].player < r.game.moves[k'].player
    decreases |parts| - i
  {
    if i >= |parts| then p
    else if parts[i] == "" then Row(parts, i + 1, p)
    else
      var (p', stop) := Column(parts[i], i, p);
      if stop then p' else Row(parts, i + 1, p')
  }

  /**
   * One line of the move section: a "Wins" line credits the current player
   * and ends the game, a blank line is skipped, a game header ends the game
   * (and is consumed with it), a move row is played, anything else is
   * skipped. The flag says that the game ends here.
   */
  function MoveSectionLine(line: string, p: Play): (r: (Play, bool))
    ensures p.game.moves <= r.0.game.moves
    ensures r.0.game.moves != p.game.moves ==> MoveLine(line).Some?
    ensures forall k, k' :: |p.game.moves| <= k < k' < |r.0.game.moves| ==> r.0.game.moves[k].player < r.0.game.moves[k'].player
  {
    match WinsLine(line)
    case Some(d) => (Play(p.game.(points := Text.Atoi(d).value, winner := p.current), p.current), true)
    case None =>
      if Text.TrimSpace(line) == "" then (p, false)
      else if GameHeader(line).Some? then (p, true)
      else match MoveLine(line)
        case Some(content) => (Row(SplitMoveLine(content), 0, p), false)
        case None => (p, false)
  }

  /** The move section from line `pos`, and the position after the last line read. */
  function Moves(lines: seq<string>, pos: nat, p: Play): (r: (Play, nat))
    requires pos <= |lines|
    ensures pos <= r.1 <= |lines|
    decreases |lines| - pos
  {
    if pos == |lines| then (p, pos)
    else
      var (p', done) := MoveSectionLine(lines[pos], p);
      if done then (p', pos + 1) else Moves(lines, pos + 1, p')
  }

  /**
   * The game header search from line `pos`: the number of the first "Game N"
   * line and the position after it, or 0 and the end when there is none.
   */
  function HeaderFrom(lines: seq<string>, pos: nat): (r: (int, nat))
    requires pos <= |lines|
    ensures pos <= r.1 <= |lines|
    ensures r.0 != 0 ==> pos < r.1
    ensures r.0 >= 0
    decreases |lines| - pos
  {
    if pos == |lines| then (0, pos)
    else match GameHeader(lines[pos])
      case Some(d) => (Text.Atoi(d).value, pos + 1)
      case None => HeaderFrom(lines, pos + 1)
  }

  /** A player's name as the metadata keeps it: up to the first comma, trimmed. */
  function CleanName(name: string): string {
    Text.TrimSpace(Text.Split(Text.TrimSpace(name), ",")[0])
  }

  /** What one call of `parseGame` ends with. */
  datatype GameStep =
    | EndOfGames               // io.EOF
    | BadScore(line: string)   // the line after the header is not a score line
    | GameRead(game: Game)

  /**
   * `parseGame` from line `pos`: the step, the metadata (game 1 names the
   * players) and the position after the last line read.
   */
  function GameAt(lines: seq<string>, pos: nat, matchLength: int, md: MatchMetadata): (r: (GameStep, MatchMetadata, nat))
    requires pos <= |lines|
    ensures pos <= r.2 <= |lines|
    ensures r.0.GameRead? ==> pos + 2 <= r.2
  {
    var (number, afterHeader) := HeaderFrom(lines, pos);
    if number == 0 || afterHeader == |lines| then (EndOfGames, md, afterHeader)
    else ScoredGame(lines[afterHeader], lines, afterHeader + 1, number, matchLength, md)
  }

  /**
   * The rest of `parseGame` once the header numbered `number` and then
   * `scoreLine` are read, the moves starting at line `next`.
   */
  function ScoredGame(scoreLine: string, lines: seq<string>, next: nat, number: int, matchLength: int, md: MatchMetadata)
    : (r: (GameStep, MatchMetadata, nat))
    requires next <= |lines|
    ensures next <= r.2 <= |lines|
  {
    match ScoreLine(scoreLine)
    case None => (BadScore(scoreLine), md, next)
    case Some((name1, d1, name2, d2)) =>
      var score1 := Text.Atoi(d1).value;
      var score2 := Text.Atoi(d2).value;
      var md' := if number == 1 then md.(player1 := CleanName(name1), player2 := CleanName(name2)) else md;
      var (p, end) := Moves(lines, next, Play(NewMatGame(number, score1, score2, matchLength), 1));
      (GameRead(p.game), md', end)
  }

  // ---------------------------------------------------------------------------
  // The whole file

  /**
   * The preamble from line `pos`: comments update the metadata until the
   * match header, whose length it records; gives the metadata, the match
   * length (0 when no header was found) and the position after the last line
   * read.
   */
  function Preamble(lines: seq<string>, pos: nat, md: MatchMetadata): (r: (MatchMetadata, int, nat))
    requires pos <= |lines|
    ensures pos <= r.2 <= |lines|
    ensures r.1 == r.0.matchLength || (r.1 == 0 && r.2 == |lines| && r.0.matchLength == md.matchLength)
    decreases |lines| - pos
  {
    if pos == |lines| then (md, 0, pos)
    else match CommentLine(lines[pos])
      case Some(c) => Preamble(lines, pos + 1, MetadataComment(md, c))
      case None =>
        match MatchHeader(lines[pos])
        case Some(d) =>
          var length := Text.Atoi(d).value;
          (md.(matchLength := length), length, pos + 1)
        case None => Preamble(lines, pos + 1, md)
  }

  /**
   * The game loop of `parse` from line `pos`, `games` read so far; `skew` is
   * how far the error line counter lags behind the lines handed out.
   */
  function GamesFrom(lines: seq<string>, pos: nat, skew: nat, matchLength: int, md: MatchMetadata, games: seq<Game>)
    : (r: Result<Match, MatError>)
    requires pos <= |lines|
    ensures r.Ok? ==> games <= r.value.games && r.value.games != []
    decreases |lines| - pos
  {
    match GameAt(lines, pos, matchLength, md)
    case (EndOfGames, _, _) => if games == [] then Err(NoGames) else Ok(Match(md, games))
    case (BadScore(line), _, end) => Err(InvalidScoreLine(end - skew, line))
    case (GameRead(g), md', end) => GamesFrom(lines, end, skew, matchLength, md', games + [g])
  }

  /**
   * What `parse` returns for the lines of a file. Without a usable match
   * header one more line is taken (and dropped) before the games, and the
   * file is refused only when there is none.
   */
  function MatResult(lines: seq<string>): (r: Result<Match, MatError>)
    ensures r.Ok? ==> r.value.games != []
  {
    var (md, matchLength, pos) := Preamble(lines, 0, EmptyMetadata);
    if matchLength != 0 then GamesFrom(lines, pos, 0, matchLength, md, [])
    else if pos == |lines| then Err(NoMatchHeader)
    else GamesFrom(lines, pos + 1, 1, matchLength, md, [])
  }

  // ---------------------------------------------------------------------------
  // One line at a time: how each loop of the reader advances its function

  lemma PreambleStep(lines: seq<string>, pos: nat, md: MatchMetadata, line: string)
    requires pos < |lines| && line == lines[pos]
    ensures CommentLine(line).Some? ==>
      Preamble(lines, pos, md) == Preamble(lines, pos + 1, MetadataComment(md, CommentLine(line).value))
    ensures CommentLine(line).None? && MatchHeader(line).Some? ==>
      var length := Text.Atoi(MatchHeader(line).value).value;
      Preamble(lines, pos, md) == (md.(matchLength := length), length, pos + 1)
    ensures CommentLine(line).None? && MatchHeader(line).None? ==>
      Preamble(lines, pos, md) == Preamble(lines, pos + 1, md)
  {
  }

  lemma HeaderStep(lines: seq<string>, pos: nat, line: string)
    requires pos < |lines| && line == lines[pos]
    ensures GameHeader(line).Some? ==> HeaderFrom(lines, pos) == (Text.Atoi(GameHeader(line).value).value, pos + 1)
    ensures GameHeader(line).None? ==> HeaderFrom(lines, pos) == HeaderFrom(lines, pos + 1)
  {
  }

  lemma GamesFromStep(lines: seq<string>, pos: nat, skew: nat, matchLength: int, md: MatchMetadata, games: seq<Game>,
                      step: GameStep, md': MatchMetadata, end: nat)
    requires pos <= |lines| && (step, md', end) == GameAt(lines, pos, matchLength, md)
    ensures step.EndOfGames? ==>
      GamesFrom(lines, pos, skew, matchLength, md, games) == if games == [] then Err(NoGames) else Ok(Match(md, games))
    ensures step.BadScore? ==>
      GamesFrom(lines, pos, skew, matchLength, md, games) == Err(InvalidScoreLine(end - skew, step.line))
    ensures step.GameRead? ==>
      GamesFrom(lines, pos, skew, matchLength, md, games) == GamesFrom(lines, end, skew, matchLength, md', games + [step.game])
  {
  }

  // ---------------------------------------------------------------------------
  // The reader

  class MATParser {
    const lines: seq<string>
    var pos: nat
    var lineNum: int

    predicate Valid()
      reads this
    {
      pos <= |lines|
    }

    /** `NewMATParser`. */
    constructor(lines: seq<string>)
      ensures this.lines == lines && pos == 0 && lineNum == 0 && Valid()
    {
      this.lines := lines;
      pos := 0;
      lineNum := 0;
    }

    /** `scanner.Scan` then `scanner.Text`: the next line, if any. */
    method Scan() returns (ok: bool, line: string)
      requires Valid()
      modifies this
      ensures Valid() && lineNum == old(lineNum)
      ensures ok <==> old(pos) < |lines|
      ensures ok ==> pos == old(pos) + 1 && line == lines[old(pos)]
      ensures !ok ==> pos == old(pos)
    {
      if pos == |lines| {
        return false, "";
      }
      line := lines[pos];
      pos := pos + 1;
      ok := true;
    }

    /** The comment and header loop of `parse`. */
    method ReadPreamble() returns (md: MatchMetadata, matchLength: int)
      requires Valid()
      modifies this
      ensures Valid() && (md, matchLength, pos) == Preamble(lines, old(pos), EmptyMetadata)
      ensures lineNum == old(lineNum) + (pos - old(pos))
    {
      md := EmptyMetadata;
      matchLength := 0;
      while true
        invariant Valid() && old(pos) <= pos
        invariant Preamble(lines, pos, md) == Preamble(lines, old(pos), EmptyMetadata)
        invariant lineNum == old(lineNum) + (pos - old(pos))
        decreases |lines| - pos
      {
        var ok, line := Scan();
        if !ok {
          return;
        }
        lineNum := lineNum + 1;
        PreambleStep(lines, pos - 1, md, line);
        var comment := CommentLine(line);
        if comment.Some? {
          md := MetadataComment(md, comment.value);
          continue;
        }
        var header := MatchHeader(line);
        if header.Some? {
          var length := Text.Atoi(header.value).value;
          matchLength := length;
          md := md.(matchLength := length);
          return;
        }
      }
    }

    /** The header loop of `parseGame`. */
    method FindGameHeader() returns (gameNumber: int)
      requires Valid()
      modifies this
      ensures Valid() && (gameNumber, pos) == HeaderFrom(lines, old(pos))
      ensures lineNum == old(lineNum) + (pos - old(pos))
    {
      gameNumber := 0;
      while true
        invariant Valid() && old(pos) <= pos
        invariant HeaderFrom(lines, pos) == HeaderFrom(lines, old(pos))
        invariant lineNum == old(lineNum) + (pos - old(pos))
        decreases |lines| - pos
      {
        var ok, line := Scan();
        if !ok {
          return;
        }
        lineNum := lineNum + 1;
        HeaderStep(lines, pos - 1, line);
        var header := GameHeader(line);
        if header.Some? {
          gameNumber := Text.Atoi(header.value).value;
          return;
        }
      }
    }

    /** One column of the row loop of `parseGame`. */
    static method PlayColumn(part: string, player: int, p: Play) returns (p': Play, stop: bool)
      ensures (p', stop) == Column(part, player, p)
    {
      p', stop := p, false;
      var doubles := Doubles(part);
      if doubles.Some? {
        var newCube := Text.Atoi(doubles.value).value;
        var mr := NewRecord(Double, player, "").(cubeValue := newCube);
        p' := Play(AddRecord(p.game, mr), player);
        return;
      }
      if Takes(part) {
        p' := Play(AddRecord(p.game, NewRecord(Take, player, "")), player);
        return;
      }
      if Drops(part) {
        var game := AddRecord(p.game, NewRecord(Drop, player, ""));
        p' := Play(game.(winner := 1 - player), 1 - player);
        stop := true;
        return;
      }
      var dice := DiceAndMove(part);
      if dice.Some? {
        var die1 := Text.DigitValue(dice.value.0);
        var die2 := Text.DigitValue(dice.value.1);
        var moveStr := Text.TrimSpace(dice.value.2);
        var mr := NewRecord(Normal, player, "").(dice := (die1, die2), moveString := moveStr);
        if moveStr != "" {
          var moveArray := ParseMatMove(moveStr);
          mr := mr.(move := moveArray);
        }
        p' := Play(AddRecord(p.game, mr), player);
      }
    }

    /** The loop over the two columns of a row. */
    static method PlayRow(parts: seq<string>, p: Play) returns (p': Play)
      ensures p' == Row(parts, 0, p)
    {
      p' := p;
      var i := 0;
      while i < |parts|
        invariant 0 <= i <= |parts|
        invariant Row(parts, i, p') == Row(parts, 0, p)
      {
        if parts[i] != "" {
          var stop;
          p', stop := PlayColumn(parts[i], i, p');
          if stop {
            return;
          }
        }
        i := i + 1;
      }
    }

    /** The body of the move loop of `parseGame`: one line of the move section. */
    static method PlayLine(line: string, p: Play) returns (p': Play, done: bool)
      ensures (p', done) == MoveSectionLine(line, p)
    {
      p', done := p, false;
      var wins := WinsLine(line);
      if wins.Some? {
        var points := Text.Atoi(wins.value).value;
        p' := Play(p.game.(points := points, winner := p.current), p.current);
        return p', true;
      }
      if Text.TrimSpace(line) == "" {
        return;
      }
      if GameHeader(line).Some? {
        return p', true;
      }
      var content := MoveLine(line);
      if content.Some? {
        var parts := SplitMoveLine(content.value);
        p' := PlayRow(parts, p);
      }
    }

    /** The move loop of `parseGame`. */
    method PlayMoves(p: Play) returns (p': Play)
      requires Valid()
      modifies this
      ensures Valid() && (p', pos) == Moves(lines, old(pos), p)
      ensures lineNum == old(lineNum) + (pos - old(pos))
    {
      p' := p;
      while true
        invariant Valid() && old(pos) <= pos
        invariant Moves(lines, pos, p') == Moves(lines, old(pos), p)
        invariant lineNum == old(lineNum) + (pos - old(pos))
        decreases |lines| - pos
      {
        var ok, line := Scan();
        if !ok {
          return;
        }
        lineNum := lineNum + 1;
        var done;
        p', done := PlayLine(line, p');
        if done {
          return;
        }
      }
    }

    /** `parseGame`. */
    method ParseGame(matchLength: int, md: MatchMetadata) returns (step: GameStep, md': MatchMetadata)
      requires Valid()
      modifies this
      ensures Valid() && (step, md', pos) == GameAt(lines, old(pos), matchLength, md)
      ensures lineNum == old(lineNum) + (pos - old(pos))
    {
      md' := md;
      var gameNumber := FindGameHeader();
      if gameNumber == 0 {
        return EndOfGames, md';
      }
      var ok, scoreLine := Scan();
      if !ok {
        return EndOfGames, md';
      }
      lineNum := lineNum + 1;
      step, md' := StartGame(scoreLine, gameNumber, matchLength, md);
    }

    /** `parseGame` from the score line on. */
    method StartGame(scoreLine: string, gameNumber: int, matchLength: int, md: MatchMetadata) returns (step: GameStep, md': MatchMetadata)
      requires Valid()
      modifies this
      ensures Valid() && (step, md', pos) == ScoredGame(scoreLine, lines, old(pos), gameNumber, matchLength, md)
      ensures lineNum == old(lineNum) + (pos - old(pos))
    {
      md' := md;
      var matches := ScoreLine(scoreLine);
      if matches.None? {
        return BadScore(scoreLine), md';
      }
      var player1 := Text.TrimSpace(matches.value.0);
      var score1 := Text.Atoi(matches.value.1).value;
      var player2 := Text.TrimSpace(matches.value.2);
      var score2 := Text.Atoi(matches.value.3).value;
      if gameNumber == 1 {
        var player1Clean := Text.Split(player1, ",")[0];
        var player2Clean := Text.Split(player2, ",")[0];
        md' := md'.(player1 := Text.TrimSpace(player1Clean), player2 := Text.TrimSpace(player2Clean));
      }
      var game := Game(gameNumber, (score1, score2), "Standard", matchLength > 0, false,
        matchLength == 0, true, 0, -1, 0, false, [], "");
      if matchLength > 0 {
        if score1 == matchLength - 1 && score2 < matchLength - 1 {
          game := game.(crawfordGame := true);
        } else if score2 == matchLength - 1 && score1 < matchLength - 1 {
          game := game.(crawfordGame := true);
        }
      }
      assert game == NewMatGame(gameNumber, score1, score2, matchLength);
      var p := PlayMoves(Play(game, 1));
      return GameRead(p.game), md';
    }

    /** `parse`, on a reader that has handed out no line yet. */
    method Parse() returns (r: Result<Match, MatError>)
      requires Valid() && pos == 0 && lineNum == 0
      modifies this
      ensures r == MatResult(lines)
    {
      var md, matchLength := ReadPreamble();
      ghost var skew := 0;
      if matchLength == 0 {
        var ok, _ := Scan();
        if !ok {
          return Err(NoMatchHeader);
        }
        skew := 1;
      }
      r := ReadGames(matchLength, md, skew);
    }

    /** The game loop of `parse` and its "no games" check. */
    method ReadGames(matchLength: int, md0: MatchMetadata, ghost skew: nat) returns (r: Result<Match, MatError>)
      requires Valid() && lineNum == pos - skew
      modifies this
      ensures r == GamesFrom(lines, old(pos), skew, matchLength, md0, [])
    {
      var md := md0;
      var games: seq<Game> := [];
      while true
        invariant Valid() && lineNum == pos - skew
        invariant GamesFrom(lines, pos, skew, matchLength, md, games) == GamesFrom(lines, old(pos), skew, matchLength, md0, [])
        decreases |lines| - pos
      {
        var stop;
        stop, r, md, games := NextGame(matchLength, md, games, skew);
        if stop {
          return;
        }
      }
    }

    /**
     * One turn of the game loop: either the loop ends with `r`, or one more
     * game has been read and the rest of the file decides the result.
     */
    method NextGame(matchLength: int, md: MatchMetadata, games: seq<Game>, ghost skew: nat)
      returns (stop: bool, r: Result<Match, MatError>, md': MatchMetadata, games': seq<Game>)
      requires Valid() && lineNum == pos - skew
      modifies this
      ensures Valid() && lineNum == pos - skew
      ensures stop ==> r == GamesFrom(lines, old(pos), skew, matchLength, md, games)
      ensures !stop ==> old(pos) < pos
      ensures !stop ==> GamesFrom(lines, pos, skew, matchLength, md', games') == GamesFrom(lines, old(pos), skew, matchLength, md, games)
    {
      ghost var before := pos;
      var step;
      step, md' := ParseGame(matchLength, md);
      games' := games;
      GamesFromStep(lines, before, skew, matchLength, md, games, step, md', pos);
      if step.EndOfGames? {
        stop := true;
        if |games| == 0 {
          r := Err(NoGames);
        } else {
          r := Ok(Match(md, games));
        }
      } else if step.BadScore? {
        stop, r := true, Err(InvalidScoreLine(lineNum, step.line));
      } else {
        stop, r := false, Err(NoGames);
        games' := games + [step.game];
      }
    }
  }
}
