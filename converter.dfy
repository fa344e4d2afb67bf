/**
 * converter.go: turning the parsed game trees into the match model. The
 * functions state what each step leaves behind; the class `MatchConverter`
 * carries the match metadata and the game being built, as the Go code's
 * `*Match` and `*Game` pointers do, and each of its methods is proved to
 * update them as the matching function says.
 */
module Converter {
  import opened Wrappers
  import Text
  import opened Types
  import opened SgfGrammar
  import opened EncodedMoves
  import opened Analysis

  // ---------------------------------------------------------------------------
  // MI: match information

  predicate IsBracket(c: char) { c == '[' || c == ']' }

  /** `strings.Trim(part, "[]")`. */
  function TrimBrackets(s: string): (r: string)
    ensures r == [] || (!IsBracket(r[0]) && !IsBracket(r[|r| - 1]))
  {
    Text.TrimRightByDrops(Text.TrimLeftBy(s, IsBracket), IsBracket);
    Text.TrimRightBy(Text.TrimLeftBy(s, IsBracket), IsBracket)
  }

  /** One `key:value` part: length, game, ws and bs take the value when it reads as an integer. */
  function MatchInfoPart(part: string, md: MatchMetadata, g: Game): (MatchMetadata, Game) {
    var kv := Text.SplitFirst(TrimBrackets(part), ":");
    if |kv| != 2 then (md, g)
    else
      var key := kv[0];
      var v := Text.Atoi(kv[1]);
      if !v.ok then (md, g)
      else if key == "length" then (md.(matchLength := v.value), g)
      else if key == "game" then (md, g.(gameNumber := v.value))
      else if key == "ws" then (md, g.(score := (v.value, g.score.1)))
      else if key == "bs" then (md, g.(score := (g.score.0, v.value)))
      else (md, g)
  }

  /** The parts in order, each applied to what the previous ones left. */
  function MatchInfoParts(parts: seq<string>, md: MatchMetadata, g: Game): (MatchMetadata, Game)
    decreases |parts|
  {
    if parts == [] then (md, g)
    else
      var (md', g') := MatchInfoPart(parts[0], md, g);
      MatchInfoParts(parts[1..], md', g')
  }

  /** `parseMatchInfo`. */
  function MatchInfo(mi: string, md: MatchMetadata, g: Game): (MatchMetadata, Game) {
    MatchInfoParts(Text.Split(mi, "]["), md, g)
  }

  // ---------------------------------------------------------------------------
  // RU: rules

  const VariationNames: set<string> := {"Nackgammon", "Hypergammon1", "Hypergammon2", "Hypergammon3"}

  /** One rule name; an unknown name changes nothing. */
  function RuleToken(rule: string, g: Game): Game {
    if rule == "Crawford" then g.(crawford := true)
    else if rule == "CrawfordGame" then g.(crawfordGame := true)
    else if rule == "Jacoby" then g.(jacoby := true)
    else if rule == "NoCube" then g.(cubeEnabled := false)
    else if rule in VariationNames then g.(variation := rule)
    else g
  }

  /** The ':'-separated names in order, each trimmed of spaces. */
  function RuleTokens(rules: seq<string>, g: Game): Game
    decreases |rules|
  {
    if rules == [] then g else RuleTokens(rules[1..], RuleToken(Text.TrimSpace(rules[0]), g))
  }

  /** `parseRules`: the names, then "Standard" when no variation has been set. */
  function Rules(ru: string, g: Game): (r: Game)
    ensures r.variation != ""
  {
    var g' := RuleTokens(Text.Split(ru, ":"), g);
    if g'.variation == "" then g'.(variation := "Standard") else g'
  }

  // ---------------------------------------------------------------------------
  // RE: result

  predicate IsPlus(c: char) { c == '+' }

  /**
   * `parseResult`: below three characters nothing changes; 'W' or 'B' first
   * names the winner; the points follow the '+' signs, with one trailing 'R'
   * removed; a trailing 'R' marks a resignation.
   */
  function ResultOf(re: string, g: Game): (r: Game)
    ensures r == g.(winner := r.winner, points := r.points, resigned := r.resigned)
    ensures g.resigned ==> r.resigned
  {
    if |re| < 3 then g
    else g.(winner := ResultWinner(re[0], g.winner),
            points := ResultPoints(re, g.points),
            resigned := g.resigned || Text.HasSuffix(re, "R"))
  }

  /** The winner after an RE value starting with `c`. */
  function ResultWinner(c: char, current: int): int {
    if c == 'W' then 0 else if c == 'B' then 1 else current
  }

  /** The points after an RE value: the number after the '+' signs, if it reads as one. */
  function ResultPoints(re: string, current: int): int
    requires re != []
  {
    var pts := Text.Atoi(Text.TrimSuffix(Text.TrimLeftBy(re[1..], IsPlus), "R"));
    if pts.ok then pts.value else current
  }

  // ---------------------------------------------------------------------------
  // Root metadata

  /** A non-empty value replaces the current one. */
  function Keep(v: string, current: string): string {
    if v != "" then v else current
  }

  /** The eleven text fields `extractMetadata` copies from the root. */
  function TextFields(node: Node, md: MatchMetadata): MatchMetadata {
    md.(application := Keep(GetProperty(node, "AP"), md.application),
        player1 := Keep(GetProperty(node, "PW"), md.player1),
        player2 := Keep(GetProperty(node, "PB"), md.player2),
        rating1 := Keep(GetProperty(node, "WR"), md.rating1),
        rating2 := Keep(GetProperty(node, "BR"), md.rating2),
        event := Keep(GetProperty(node, "EV"), md.event),
        round := Keep(GetProperty(node, "RO"), md.round),
        place := Keep(GetProperty(node, "PC"), md.place),
        date := Keep(GetProperty(node, "DT"), md.date),
        annotator := Keep(GetProperty(node, "AN"), md.annotator),
        comment := Keep(GetProperty(node, "GC"), md.comment))
  }

  /** `extractMetadata`: the text fields, then MI, RU, CV and RE, each only when present and non-empty. */
  function ExtractOf(node: Node, md: MatchMetadata, g: Game): (MatchMetadata, Game) {
    var md1 := TextFields(node, md);
    var mi := GetProperty(node, "MI");
    var (md2, g2) := if mi != "" then MatchInfo(mi, md1, g) else (md1, g);
    var ru := GetProperty(node, "RU");
    var g3 := if ru != "" then Rules(ru, g2) else g2;
    var g4 := if GetProperty(node, "CV") != "" then g3.(autoDoubles := GetPropertyInt(node, "CV")) else g3;
    var re := GetProperty(node, "RE");
    var g5 := if re != "" then ResultOf(re, g4) else g4;
    (md2, g5)
  }

  // ---------------------------------------------------------------------------
  // Move records

  /** `strconv.Atoi(string(c))` with the error ignored: the digit's value, else 0. */
  function DieValue(c: char): (d: int)
    ensures Text.IsDigit(c) ==> d == Text.DigitValue(c)
    ensures !Text.IsDigit(c) ==> d == 0
  {
    assert [c][1..] == [];
    assert Text.IsDigit(c) ==> Text.ScanDigits([c], 0) == Text.ScanDigits([], Text.DigitValue(c));
    Text.Atoi([c]).value
  }

  /** The CP value: "c" centred (-1), "w" side 0, "b" side 1, anything else 0. */
  function CubeOwnerCode(cp: string): (owner: int)
    ensures owner == -1 <==> cp == "c"
    ensures owner == 1 <==> cp == "b"
    ensures owner == 0 <==> cp != "c" && cp != "b"
  {
    if cp == "c" then -1 else if cp == "w" then 0 else if cp == "b" then 1 else 0
  }

  /** The kind and dice/move part of `processMove`, before the analysis rows. */
  function PlayedRecord(player: int, moveStr: string, comment: string): MoveRecord {
    if moveStr == "double" then NewRecord(Double, player, comment)
    else if moveStr == "take" then NewRecord(Take, player, comment)
    else if moveStr == "drop" || moveStr == "pass" then NewRecord(Drop, player, comment)
    else
      var mr := NewRecord(Normal, player, comment);
      if |moveStr| < 2 then mr
      else
        var mr := mr.(dice := (DieValue(moveStr[0]), DieValue(moveStr[1])));
        if |moveStr| == 2 then mr
        else
          var move := EncodedMove(moveStr[2..], mr.move);
          mr.(move := move, moveString := MoveText(move, player))
  }

  /** `processMove`'s record: the played part, then the A, DA, LU and SK rows in that order. */
  function MoveRecordOf(node: Node, player: int, moveStr: string, comment: string): MoveRecord {
    Annotated(node, PlayedRecord(player, moveStr, comment))
  }

  /** The A, DA, LU and SK rows of a node, parsed in that order onto a move record. */
  function Annotated(node: Node, mr: MoveRecord): MoveRecord {
    var mr := if HasProperty(node, "A") then MoveAnalysisOf(node, mr) else mr;
    var mr := if HasProperty(node, "DA") then CubeAnalysisOf(node, mr) else mr;
    var mr := if HasProperty(node, "LU") then LuckOf(node, mr) else mr;
    if HasProperty(node, "SK") then SkillOf(node, mr) else mr
  }

  /** A setup value counts when it is one letter naming a point or the bar (0..24). */
  function PointOf(v: string): int {
    if |v| == 1 then DecodePoint(v[0]) else -1
  }

  /** The number of setup values in `vs` that name point `p`. */
  function Occurrences(vs: seq<string>, p: int): (n: nat)
    ensures n <= |vs|
    decreases |vs|
  {
    if vs == [] then 0
    else Occurrences(vs[..|vs| - 1], p) + (if PointOf(vs[|vs| - 1]) == p then 1 else 0)
  }

  /** The 25 checker counts of one side of a set-up board. */
  function Tally(vs: seq<string>): (counts: seq<int>)
    ensures |counts| == 25
  {
    seq(25, p requires 0 <= p < 25 => Occurrences(vs, p))
  }

  /** `processSetBoard`'s record: AW counts for side 0, AB for side 1, PL for the side on roll. */
  function SetBoardRecord(node: Node, comment: string): MoveRecord {
    var board: Board := [Tally(AllValues(node, "AW")), Tally(AllValues(node, "AB"))];
    var pl := GetProperty(node, "PL");
    var onRoll := if pl == "" || pl == "W" || pl == "w" then 0 else 1;
    NewRecord(SetBoard, 0, comment).(position := Some(Position(board, 0, 0, onRoll, (0, 0), (0, 0), 0, false)))
  }

  /** The set-cube record a CV property adds. */
  function CvRecords(node: Node, comment: string): seq<MoveRecord> {
    if HasProperty(node, "CV")
    then [NewRecord(SetCube, 0, comment).(cubeValue := GetPropertyInt(node, "CV"))] else []
  }

  /** The cube-position record a non-empty CP property adds. */
  function CpRecords(node: Node, comment: string): seq<MoveRecord> {
    var cp := GetProperty(node, "CP");
    if cp != "" then [NewRecord(SetCubePos, 0, comment).(cubeOwner := CubeOwnerCode(cp))] else []
  }

  /** The set-dice record a DI property of two or more characters adds. */
  function DiRecords(node: Node, comment: string): seq<MoveRecord> {
    var di := GetProperty(node, "DI");
    if di != "" && |di| >= 2
    then [NewRecord(SetDice, 0, comment).(dice := (DieValue(di[0]), DieValue(di[1])))] else []
  }

  /** The CV, CP and DI records of a node that is neither a move nor a set-up, in that order. */
  function CubeRecords(node: Node, comment: string): seq<MoveRecord> {
    CvRecords(node, comment) + CpRecords(node, comment) + DiRecords(node, comment)
  }

  /** `processNode`: the records one node adds, B before W before a set-up before the cube records. */
  function NodeRecords(node: Node): (rs: seq<MoveRecord>)
    ensures |rs| <= 3
  {
    var comment := GetProperty(node, "C");
    if GetProperty(node, "B") != "" then [MoveRecordOf(node, 1, GetProperty(node, "B"), comment)]
    else if GetProperty(node, "W") != "" then [MoveRecordOf(node, 0, GetProperty(node, "W"), comment)]
    else if HasProperty(node, "AE") || HasProperty(node, "AW") || HasProperty(node, "AB") then
      [SetBoardRecord(node, comment)]
    else CubeRecords(node, comment)
  }

  // ---------------------------------------------------------------------------
  // Games and the match

  /** The nodes `convertGame` visits: the root, then first children only. */
  function Path(n: Node): (ns: seq<Node>)
    ensures |ns| >= 1 && ns[0] == n
    decreases n
  {
    if |n.children| == 0 then [n]
    else
      assert n.children[0] in n.children;
      [n] + Path(n.children[0])
  }

  function PathRecords(ns: seq<Node>): seq<MoveRecord>
    decreases |ns|
  {
    if ns == [] then [] else NodeRecords(ns[0]) + PathRecords(ns[1..])
  }

  /** The game `convertGame` starts from. */
  const NewGame := EmptyGame.(cubeEnabled := true)

  /** `convertGame`: the metadata and game that the root and its first-child path leave. */
  function GameOf(root: Node, md: MatchMetadata): (MatchMetadata, Game) {
    var (md', g) := ExtractOf(root, md, NewGame);
    (md', g.(moves := g.moves + PathRecords(Path(root))))
  }

  /** The games of `roots` in order, with the metadata each root leaves. */
  function GamesFrom(roots: seq<Node>, md: MatchMetadata, games: seq<Game>): (r: (MatchMetadata, seq<Game>))
    ensures |r.1| == |games| + |roots|
    decreases |roots|
  {
    if roots == [] then (md, games)
    else
      var (md', g) := GameOf(roots[0], md);
      GamesFrom(roots[1..], md', games + [g])
  }

  /** `convertNodesToMatch`. */
  function MatchOf(roots: seq<Node>): (r: Result<Match, string>)
    ensures r.Err? <==> roots == []
    ensures r.Ok? ==> |r.value.games| == |roots|
  {
    if roots == [] then Err("no games found")
    else
      var (md, games) := GamesFrom(roots, EmptyMetadata, []);
      Ok(Match(md, games))
  }

  /** MoveRecordOf, one row at a time, for the proof of `processMove`. */
  lemma RecordStages(node: Node, m0: MoveRecord, m1: MoveRecord, m2: MoveRecord, m3: MoveRecord, m4: MoveRecord)
    requires m1 == if HasProperty(node, "A") then MoveAnalysisOf(node, m0) else m0
    requires m2 == if HasProperty(node, "DA") then CubeAnalysisOf(node, m1) else m1
    requires m3 == if HasProperty(node, "LU") then LuckOf(node, m2) else m2
    requires m4 == if HasProperty(node, "SK") then SkillOf(node, m3) else m3
    ensures m4 == Annotated(node, m0)
  {
  }

  lemma OtherNodeRecords(node: Node)
    requires GetProperty(node, "B") == "" && GetProperty(node, "W") == ""
    requires !HasProperty(node, "AE") && !HasProperty(node, "AW") && !HasProperty(node, "AB")
    ensures NodeRecords(node) == CubeRecords(node, GetProperty(node, "C"))
  {
  }

  // ---------------------------------------------------------------------------
  // The conversion state

  /** The match metadata and the game being built: what `*Match` and `*Game` point to. */
  class MatchConverter {
    var metadata: MatchMetadata
    var game: Game

    constructor()
      ensures metadata == EmptyMetadata && game == NewGame
    {
      metadata := EmptyMetadata;
      game := NewGame;
    }

    /** `parseMatchInfo`. */
    method ParseMatchInfo(mi: string)
      modifies this
      ensures (metadata, game) == MatchInfo(mi, old(metadata), old(game))
    {
      var parts := Text.Split(mi, "][");
      ghost var target := MatchInfoParts(parts, metadata, game);
      var i := 0;
      while i < |parts|
        invariant 0 <= i <= |parts|
        invariant MatchInfoParts(parts[i..], metadata, game) == target
      {
        assert parts[i..][1..] == parts[i + 1..];
        var part := TrimBrackets(parts[i]);
        var kv := Text.SplitFirst(part, ":");
        if |kv| == 2 {
          var key := kv[0];
          var value := kv[1];
          var v := Text.Atoi(value);
          if key == "length" {
            if v.ok {
              metadata := metadata.(matchLength := v.value);
            }
          } else if key == "game" {
            if v.ok {
              game := game.(gameNumber := v.value);
            }
          } else if key == "ws" {
            if v.ok {
              game := game.(score := (v.value, game.score.1));
            }
          } else if key == "bs" {
            if v.ok {
              game := game.(score := (game.score.0, v.value));
            }
          }
        }
        i := i + 1;
      }
    }

    /** `parseRules`. */
    method ParseRules(ru: string)
      modifies this
      ensures metadata == old(metadata) && game == Rules(ru, old(game))
    {
      var rules := Text.Split(ru, ":");
      var g := game;
      var i := 0;
      while i < |rules|
        invariant 0 <= i <= |rules|
        invariant metadata == old(metadata) && game == old(game)
        invariant RuleTokens(rules[i..], g) == RuleTokens(rules, game)
      {
        assert rules[i..][1..] == rules[i + 1..];
        g := ApplyRule(Text.TrimSpace(rules[i]), g);
        i := i + 1;
      }
      if g.variation == "" {
        g := g.(variation := "Standard");
      }
      game := g;
    }

    /** The body of the rule loop of `parseRules`: one trimmed name. */
    static method ApplyRule(rule: string, game: Game) returns (g: Game)
      ensures g == RuleToken(rule, game)
    {
      g := game;
      if rule == "Crawford" {
        g := g.(crawford := true);
      } else if rule == "CrawfordGame" {
        g := g.(crawfordGame := true);
      } else if rule == "Jacoby" {
        g := g.(jacoby := true);
      } else if rule == "NoCube" {
        g := g.(cubeEnabled := false);
      } else if rule == "Nackgammon" || rule == "Hypergammon1" || rule == "Hypergammon2" || rule == "Hypergammon3" {
        g := g.(variation := rule);
      }
    }

    /** `parseResult`. */
    method ParseResult(re: string)
      modifies this
      ensures metadata == old(metadata)
      ensures game == ResultOf(re, old(game))
    {
      game := ResultApplied(re, game);
    }

    /** The updates `parseResult` makes, in its order, on a game value. */
    static method ResultApplied(re: string, game: Game) returns (g: Game)
      ensures g == ResultOf(re, game)
    {
      g := game;
      if |re| < 3 {
        return;
      }
      if re[0] == 'W' {
        g := g.(winner := 0);
      } else if re[0] == 'B' {
        g := g.(winner := 1);
      }
      var pointsStr := Text.TrimLeftBy(re[1..], IsPlus);
      pointsStr := Text.TrimSuffix(pointsStr, "R");
      var points := Text.Atoi(pointsStr);
      if points.ok {
        g := g.(points := points.value);
      }
      if Text.HasSuffix(re, "R") {
        g := g.(resigned := true);
      }
      assert g.points == ResultPoints(re, game.points);
    }

    /** `extractMetadata`. */
    method ExtractMetadata(node: Node)
      modifies this
      ensures (metadata, game) == ExtractOf(node, old(metadata), old(game))
    {
      metadata := TextFields(node, metadata);
      var mi := GetProperty(node, "MI");
      if mi != "" {
        ParseMatchInfo(mi);
      }
      var ru := GetProperty(node, "RU");
      if ru != "" {
        ParseRules(ru);
      }
      var cv := GetProperty(node, "CV");
      if cv != "" {
        game := game.(autoDoubles := GetPropertyInt(node, "CV"));
      }
      var re := GetProperty(node, "RE");
      if re != "" {
        ParseResult(re);
      }
    }

    /** `processMove`: one record for the move, appended to the game. */
    method ProcessMove(node: Node, player: int, moveStr: string, comment: string)
      modifies this
      ensures metadata == old(metadata)
      ensures game == old(game).(moves := old(game).moves + [MoveRecordOf(node, player, moveStr, comment)])
    {
      var mr := PlayedMove(player, moveStr, comment);
      mr := Annotate(node, mr);
      game := game.(moves := game.moves + [mr]);
    }

    /** The part of `processMove` that reads the move string: cube actions, dice and the encoded move. */
    static method PlayedMove(player: int, moveStr: string, comment: string) returns (mr: MoveRecord)
      ensures mr == PlayedRecord(player, moveStr, comment)
    {
      mr := NewRecord(Normal, player, comment);
      if moveStr == "double" {
        mr := mr.(kind := Double);
      } else if moveStr == "take" {
        mr := mr.(kind := Take);
      } else if moveStr == "drop" || moveStr == "pass" {
        mr := mr.(kind := Drop);
      } else {
        mr := mr.(kind := Normal);
        if |moveStr| >= 2 {
          mr := mr.(dice := (DieValue(moveStr[0]), DieValue(moveStr[1])));
          if |moveStr| > 2 {
            mr := ParseEncodedMove(moveStr[2..], mr);
          }
        }
      }
    }

    /** The part of `processMove` that attaches the analysis rows present on the node. */
    static method Annotate(node: Node, m0: MoveRecord) returns (mr: MoveRecord)
      ensures mr == Annotated(node, m0)
    {
      mr := m0;
      if HasProperty(node, "A") {
        mr := ParseMoveAnalysis(node, mr);
      }
      ghost var m1 := mr;
      if HasProperty(node, "DA") {
        mr := CubeAnalysisOf(node, mr);
      }
      ghost var m2 := mr;
      if HasProperty(node, "LU") {
        mr := LuckOf(node, mr);
      }
      ghost var m3 := mr;
      if HasProperty(node, "SK") {
        mr := SkillOf(node, mr);
      }
      RecordStages(node, m0, m1, m2, m3, mr);
    }

    /** `processSetBoard`: one set-up record, appended to the game. */
    method ProcessSetBoard(node: Node, comment: string)
      modifies this
      ensures metadata == old(metadata)
      ensures game == old(game).(moves := old(game).moves + [SetBoardRecord(node, comment)])
    {
      var white := CountCheckers(AllValues(node, "AW"));
      var black := CountCheckers(AllValues(node, "AB"));
      var board: Board := [white, black];
      var pos := Position(board, 0, 0, 0, (0, 0), (0, 0), 0, false);
      var pl := GetProperty(node, "PL");
      if pl != "" {
        if pl == "W" || pl == "w" {
          pos := pos.(onRoll := 0);
        } else {
          pos := pos.(onRoll := 1);
        }
      }
      var mr := NewRecord(SetBoard, 0, comment).(position := Some(pos));
      game := game.(moves := game.moves + [mr]);
    }

    /** `processNode`. */
    method ProcessNode(node: Node)
      modifies this
      ensures metadata == old(metadata)
      ensures game == old(game).(moves := old(game).moves + NodeRecords(node))
    {
      var comment := GetProperty(node, "C");
      var bMove := GetProperty(node, "B");
      if bMove != "" {
        ProcessMove(node, 1, bMove, comment);
        assert NodeRecords(node) == [MoveRecordOf(node, 1, bMove, comment)];
        return;
      }
      var wMove := GetProperty(node, "W");
      if wMove != "" {
        ProcessMove(node, 0, wMove, comment);
        assert NodeRecords(node) == [MoveRecordOf(node, 0, wMove, comment)];
        return;
      }
      if HasProperty(node, "AE") || HasProperty(node, "AW") || HasProperty(node, "AB") {
        ProcessSetBoard(node, comment);
        assert NodeRecords(node) == [SetBoardRecord(node, comment)];
        return;
      }
      ProcessCubeProperties(node, comment);
      OtherNodeRecords(node);
    }

    /** The CV, CP and DI part of `processNode`, for a node that is neither a move nor a set-up. */
    method ProcessCubeProperties(node: Node, comment: string)
      modifies this
      ensures metadata == old(metadata)
      ensures game == old(game).(moves := old(game).moves + CubeRecords(node, comment))
    {
      ghost var before := game.moves;
      AddSetCube(node, comment);
      AddCubePosition(node, comment);
      AddDice(node, comment);
      AppendFour(before, CvRecords(node, comment), CpRecords(node, comment), DiRecords(node, comment));
    }

    method AddSetCube(node: Node, comment: string)
      modifies this
      ensures metadata == old(metadata)
      ensures game == old(game).(moves := old(game).moves + CvRecords(node, comment))
    {
      if HasProperty(node, "CV") {
        var mr := NewRecord(SetCube, 0, comment).(cubeValue := GetPropertyInt(node, "CV"));
        game := game.(moves := game.moves + [mr]);
      } else {
        AppendNothing(game.moves);
      }
    }

    method AddCubePosition(node: Node, comment: string)
      modifies this
      ensures metadata == old(metadata)
      ensures game == old(game).(moves := old(game).moves + CpRecords(node, comment))
    {
      var cp := GetProperty(node, "CP");
      if cp != "" {
        var mr := NewRecord(SetCubePos, 0, comment);
        if cp == "c" {
          mr := mr.(cubeOwner := -1);
        } else if cp == "w" {
          mr := mr.(cubeOwner := 0);
        } else if cp == "b" {
          mr := mr.(cubeOwner := 1);
        }
        assert mr == NewRecord(SetCubePos, 0, comment).(cubeOwner := CubeOwnerCode(cp));
        game := game.(moves := game.moves + [mr]);
      } else {
        AppendNothing(game.moves);
      }
    }

    method AddDice(node: Node, comment: string)
      modifies this
      ensures metadata == old(metadata)
      ensures game == old(game).(moves := old(game).moves + DiRecords(node, comment))
    {
      var di := GetProperty(node, "DI");
      if di != "" && |di| >= 2 {
        var mr := NewRecord(SetDice, 0, comment);
        mr := mr.(dice := (DieValue(di[0]), DieValue(di[1])));
        game := game.(moves := game.moves + [mr]);
        // `parseLuck` runs here on the local copy, after the copy was appended,
        // so the record in the game never carries the luck row.
      } else {
        AppendNothing(game.moves);
      }
    }

    /** `convertGame`: a fresh game, the root's metadata, then every node on the first-child path. */
    method ConvertGame(root: Node) returns (g: Game)
      modifies this
      ensures (metadata, g) == GameOf(root, old(metadata))
      ensures game == g
    {
      game := NewGame;
      ExtractMetadata(root);
      ghost var start := game;
      var current := root;
      while true
        invariant metadata == GameOf(root, old(metadata)).0
        invariant game.(moves := game.moves + PathRecords(Path(current))) == GameOf(root, old(metadata)).1
        decreases current
      {
        ghost var visited := game;
        ProcessNode(current);
        if |current.children| > 0 {
          var next := current.children[0];
          assert Path(current) == [current] + Path(next);
          assert PathRecords(Path(current)) == NodeRecords(current) + PathRecords(Path(next));
          Associative(visited.moves, NodeRecords(current), PathRecords(Path(next)));
          assert next in current.children;
          current := next;
        } else {
          assert PathRecords(Path(current)) == NodeRecords(current) + PathRecords([]);
          AppendNothing(NodeRecords(current));
          break;
        }
      }
      g := game;
    }
  }

  /** The checker-count loops of `processSetBoard`, on one side's values. */
  method CountCheckers(values: seq<string>) returns (counts: seq<int>)
    ensures counts == Tally(values)
  {
    var a := new int[25](_ => 0);
    var i := 0;
    while i < |values|
      invariant 0 <= i <= |values|
      invariant forall p :: 0 <= p < 25 ==> a[p] == Occurrences(values[..i], p)
    {
      assert values[..i + 1][..i] == values[..i];
      var point := values[i];
      if |point| == 1 {
        var pt := DecodePoint(point[0]);
        if pt >= 0 && pt < 25 {
          a[pt] := a[pt] + 1;
        }
      }
      i := i + 1;
    }
    assert values[..i] == values;
    counts := a[..];
  }

  /** `convertNodesToMatch`: no roots is an error; otherwise one game per root, in order. */
  method ConvertNodesToMatch(nodes: seq<Node>) returns (r: Result<Match, string>)
    ensures r == MatchOf(nodes)
  {
    if |nodes| == 0 {
      return Err("no games found");
    }
    var converter := new MatchConverter();
    var games: seq<Game> := [];
    var i := 0;
    while i < |nodes|
      invariant 0 <= i <= |nodes|
      invariant GamesFrom(nodes[i..], converter.metadata, games) == GamesFrom(nodes, EmptyMetadata, [])
    {
      assert nodes[i..][1..] == nodes[i + 1..];
      var game := converter.ConvertGame(nodes[i]);
      games := games + [game];
      i := i + 1;
    }
    r := Ok(Match(converter.metadata, games));
  }
}
