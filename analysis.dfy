/**
 * The analysis rows gnuBG attaches to a move node (converter.go):
 * `parseMoveAnalysis` (A), `parseCubeAnalysis` (DA), `parseLuck` (LU) and
 * `parseSkill` (SK). Each fills one field of the move record it is given; a
 * row is a list of whitespace-separated fields read by position.
 */
module Analysis {
  import opened Wrappers
  import Text
  import opened Types
  import opened SgfGrammar
  import opened EncodedMoves

  /** `node.Properties[name]`: all values, none when the property is absent. */
  function AllValues(node: Node, name: string): (vs: seq<string>)
    ensures name !in node.properties ==> vs == []
  {
    if name in node.properties then node.properties[name] else []
  }

  // ---------------------------------------------------------------------------
  // A: move analysis

  /** One analysed option from a row of at least ten fields. */
  function OptionOf(parts: seq<string>, depth: int): MoveOption
    requires |parts| >= 10
  {
    var base := if |parts[0]| >= 2 then
      EmptyOption.(move := EncodedMove(parts[0], ZeroMove), moveString := MoveText(EncodedMove(parts[0], ZeroMove), 0))
    else EmptyOption;
    var win := Text.ParseNum(parts[4]);
    base.(player1WinRate := win,
          player1GammonRate := Text.ParseNum(parts[5]),
          player1BackgammonRate := Text.ParseNum(parts[6]),
          player2GammonRate := Text.ParseNum(parts[7]),
          player2BackgammonRate := Text.ParseNum(parts[8]),
          equity := Text.ParseNum(parts[9]),
          player2WinRate := 1.0 - win,
          analysisDepth := depth)
  }

  /** The option a row yields: none when it has fewer than ten fields. */
  function RowOptions(row: string, depth: int): (opts: seq<MoveOption>)
    ensures |opts| <= 1
    ensures |opts| == 1 <==> |Text.Fields(row)| >= 10
  {
    var parts := Text.Fields(row);
    if |parts| < 10 then [] else [OptionOf(parts, depth)]
  }

  /** The options of the rows in order; a row with fewer than ten fields is skipped. */
  function Options(rows: seq<string>, depth: int): (opts: seq<MoveOption>)
    ensures |opts| <= |rows|
    decreases |rows|
  {
    if rows == [] then [] else RowOptions(rows[0], depth) + Options(rows[1..], depth)
  }

  /** A first value that reads as an integer is the depth and is not a row. */
  function AnalysisRows(strs: seq<string>): (dr: (int, seq<string>))
    requires strs != []
  {
    var ply := Text.Atoi(Text.TrimSpace(strs[0]));
    if ply.ok then (ply.value, strs[1..]) else (0, strs)
  }

  /** What `parseMoveAnalysis` leaves in the record. */
  function MoveAnalysisOf(node: Node, mr: MoveRecord): MoveRecord {
    var strs := AllValues(node, "A");
    if strs == [] then mr
    else
      var (depth, rows) := AnalysisRows(strs);
      mr.(analysis := Some(MoveAnalysis(Options(rows, depth), 0)))
  }

  /** The body of the option loop of `parseMoveAnalysis`, for a row of ten fields or more. */
  method ParseOptionRow(parts: seq<string>, plyDepth: int) returns (opt: MoveOption)
    requires |parts| >= 10
    ensures opt == OptionOf(parts, plyDepth)
  {
    opt := EmptyOption;
    if |parts[0]| >= 2 {
      opt := ParseEncodedMoveOption(parts[0], opt);
    }
    var win := Text.ParseNum(parts[4]);
    opt := opt.(player1WinRate := win,
                player1GammonRate := Text.ParseNum(parts[5]),
                player1BackgammonRate := Text.ParseNum(parts[6]),
                player2GammonRate := Text.ParseNum(parts[7]),
                player2BackgammonRate := Text.ParseNum(parts[8]),
                equity := Text.ParseNum(parts[9]));
    opt := opt.(player2WinRate := 1.0 - opt.player1WinRate);
    opt := opt.(analysisDepth := plyDepth);
  }

  /** The option loop of `parseMoveAnalysis`: one option per row of ten fields or more, in order. */
  method CollectOptions(rows: seq<string>, depth: int) returns (moves: seq<MoveOption>)
    ensures moves == Options(rows, depth)
  {
    moves := [];
    var i := 0;
    while i < |rows|
      invariant 0 <= i <= |rows|
      invariant moves + Options(rows[i..], depth) == Options(rows, depth)
    {
      var opts := ReadRow(rows[i], depth);
      CollectStep(rows, i, depth, moves, opts);
      moves := moves + opts;
      i := i + 1;
    }
    assert rows[i..] == [];
  }

  lemma CollectStep(rows: seq<string>, i: nat, depth: int, moves: seq<MoveOption>, opts: seq<MoveOption>)
    requires i < |rows| && moves + Options(rows[i..], depth) == Options(rows, depth)
    requires opts == RowOptions(rows[i], depth)
    ensures (moves + opts) + Options(rows[i + 1..], depth) == Options(rows, depth)
  {
    var later := Options(rows[i + 1..], depth);
    assert Options(rows[i..], depth) == opts + later by {
      OptionsStep(rows, i, depth);
    }
    Associative(moves, opts, later);
  }

  /** One turn of the option loop: the row's option, if it has ten fields or more. */
  method ReadRow(row: string, depth: int) returns (opts: seq<MoveOption>)
    ensures opts == RowOptions(row, depth)
  {
    var parts := Text.Fields(row);
    if |parts| >= 10 {
      var opt := ParseOptionRow(parts, depth);
      opts := [opt];
    } else {
      opts := [];
    }
  }

  /** `parseMoveAnalysis`. */
  method ParseMoveAnalysis(node: Node, mr: MoveRecord) returns (r: MoveRecord)
    ensures r == MoveAnalysisOf(node, mr)
  {
    var analysisStrs := AllValues(node, "A");
    if |analysisStrs| == 0 {
      return mr;
    }
    var plyDepth := 0;
    var ply := Text.Atoi(Text.TrimSpace(analysisStrs[0]));
    if ply.ok {
      plyDepth := ply.value;
      analysisStrs := analysisStrs[1..];
    }
    assert (plyDepth, analysisStrs) == AnalysisRows(AllValues(node, "A"));
    var moves := CollectOptions(analysisStrs, plyDepth);
    r := mr.(analysis := Some(MoveAnalysis(moves, 0)));
  }

  lemma OptionsStep(rows: seq<string>, i: nat, depth: int)
    requires i < |rows|
    ensures Options(rows[i..], depth) == RowOptions(rows[i], depth) + Options(rows[i + 1..], depth)
  {
    assert rows[i..][1..] == rows[i + 1..];
  }

  /** Every option carries the shared depth, and the opponent's win rate is one minus the player's. */
  lemma {:induction false} OptionsAgree(rows: seq<string>, depth: int)
    ensures forall o :: o in Options(rows, depth) ==>
      o.analysisDepth == depth && o.player2WinRate == 1.0 - o.player1WinRate
    decreases |rows|
  {
    if rows != [] {
      OptionsAgree(rows[1..], depth);
    }
  }

  /** When every row has ten fields or more, there is one option per row, in row order. */
  lemma {:induction false} LongRowsAllKept(rows: seq<string>, depth: int)
    requires forall i :: 0 <= i < |rows| ==> |Text.Fields(rows[i])| >= 10
    ensures |Options(rows, depth)| == |rows|
    decreases |rows|
  {
    if rows != [] {
      LongRowsAllKept(rows[1..], depth);
    }
  }

  /** Among rows of ten fields or more, option i is read from row i. */
  lemma {:induction false} LongRowOption(rows: seq<string>, depth: int, i: nat)
    requires forall k :: 0 <= k < |rows| ==> |Text.Fields(rows[k])| >= 10
    requires i < |rows|
    ensures i < |Options(rows, depth)| && Options(rows, depth)[i] == OptionOf(Text.Fields(rows[i]), depth)
    decreases i
  {
    var tail := Options(rows[1..], depth);
    assert Options(rows, depth) == RowOptions(rows[0], depth) + tail;
    if i > 0 {
      assert |RowOptions(rows[0], depth)| == 1;
      LongRowOption(rows[1..], depth, i - 1);
      assert rows[1..][i - 1] == rows[i];
      assert Options(rows, depth)[i] == tail[i - 1];
    }
  }

  /** Rows of fewer than ten fields give no options at all. */
  lemma {:induction false} ShortRowsSkipped(rows: seq<string>, depth: int)
    requires forall i :: 0 <= i < |rows| ==> |Text.Fields(rows[i])| < 10
    ensures Options(rows, depth) == []
    decreases |rows|
  {
    if rows != [] {
      ShortRowsSkipped(rows[1..], depth);
    }
  }

  /** Fields 4 to 9 of a row, and field 0 when it holds a move, feed these option fields. */
  lemma OptionLayout(parts: seq<string>, depth: int)
    requires |parts| >= 10
    ensures var o := OptionOf(parts, depth);
      o.player1WinRate == Text.ParseNum(parts[4]) && o.player1GammonRate == Text.ParseNum(parts[5])
      && o.player1BackgammonRate == Text.ParseNum(parts[6]) && o.player2GammonRate == Text.ParseNum(parts[7])
      && o.player2BackgammonRate == Text.ParseNum(parts[8]) && o.equity == Text.ParseNum(parts[9])
      && o.move == (if |parts[0]| >= 2 then EncodedMove(parts[0], ZeroMove) else ZeroMove)
  {
  }

  /** With at least one value, the record gains an analysis whose options come from the rows after the depth. */
  lemma AnalysisPresent(node: Node, mr: MoveRecord)
    requires AllValues(node, "A") != []
    ensures var r := MoveAnalysisOf(node, mr);
      var (depth, rows) := AnalysisRows(AllValues(node, "A"));
      r == mr.(analysis := r.analysis) && r.analysis.Some?
      && r.analysis.value.moves == Options(rows, depth) && |rows| >= |AllValues(node, "A")| - 1
  {
  }

  // ---------------------------------------------------------------------------
  // DA: cube analysis

  /** A DA value whose first value has at least 13 fields. */
  predicate HasCubeRow(node: Node) {
    AllValues(node, "DA") != [] && |Text.Fields(AllValues(node, "DA")[0])| >= 13
  }

  /** What `parseCubeAnalysis` leaves in the record. */
  function CubeAnalysisOf(node: Node, mr: MoveRecord): MoveRecord {
    var strs := AllValues(node, "DA");
    if strs == [] then mr
    else
      var parts := Text.Fields(strs[0]);
      if |parts| < 13 then mr
      else
        var ca := EmptyCubeAnalysis.(
          player1WinRate := Text.ParseNum(parts[7]),
          player2WinRate := Text.ParseNum(parts[8]),
          player2GammonRate := Text.ParseNum(parts[9]),
          player1GammonRate := Text.ParseNum(parts[10]),
          player1BackgammonRate := Text.ParseNum(parts[11]),
          cubelessEquity := Text.ParseNum(parts[12]));
        var ca := if |parts| >= 16 then ca.(cubefulNoDouble := Text.ParseNum(parts[13])) else ca;
        var ca := ca.(analysisDepth := Text.Atoi(parts[2]).value);
        var best :=
          if mr.kind == Double then (if ca.cubefulDoubleTake > ca.cubefulNoDouble then "double" else "no_double")
          else if mr.kind == Take || mr.kind == Drop then
            (if ca.cubefulDoubleTake > ca.cubefulDoublePass then "take" else "pass")
          else ca.bestAction;
        mr.(cubeAnalysis := Some(ca.(bestAction := best)))
  }

  /** Without a row of 13 fields the record is unchanged. */
  lemma NoCubeRowNoAnalysis(node: Node, mr: MoveRecord)
    requires !HasCubeRow(node)
    ensures CubeAnalysisOf(node, mr) == mr
  {
  }

  /**
   * Fields 7 to 12 feed the probabilities and the cubeless equity, field 13
   * the no-double equity only when there are 16 fields, field 2 the depth.
   * The double/take and double/pass equities are never filled, so a double
   * is advised exactly when the no-double equity is negative, and a take or
   * drop always gets "pass".
   */
  lemma CubeRowLayout(node: Node, mr: MoveRecord)
    requires HasCubeRow(node)
    ensures var parts := Text.Fields(AllValues(node, "DA")[0]);
      var r := CubeAnalysisOf(node, mr);
      r == mr.(cubeAnalysis := r.cubeAnalysis) && r.cubeAnalysis.Some?
      && var ca := r.cubeAnalysis.value;
      ca.player1WinRate == Text.ParseNum(parts[7]) && ca.player2WinRate == Text.ParseNum(parts[8])
      && ca.player2GammonRate == Text.ParseNum(parts[9]) && ca.player1GammonRate == Text.ParseNum(parts[10])
      && ca.player1BackgammonRate == Text.ParseNum(parts[11]) && ca.cubelessEquity == Text.ParseNum(parts[12])
      && ca.cubefulNoDouble == (if |parts| >= 16 then Text.ParseNum(parts[13]) else 0.0)
      && ca.analysisDepth == Text.Atoi(parts[2]).value
      && ca.cubefulDoubleTake == 0.0 && ca.cubefulDoublePass == 0.0
      && (mr.kind == Double ==> (ca.bestAction == "double" <==> ca.cubefulNoDouble < 0.0))
      && (mr.kind == Double ==> ca.bestAction in {"double", "no_double"})
      && (mr.kind == Take || mr.kind == Drop ==> ca.bestAction == "pass")
      && (mr.kind !in {Double, Take, Drop} ==> ca.bestAction == "")
  {
  }

  // ---------------------------------------------------------------------------
  // LU and SK: two fields each

  /** What `parseLuck` leaves in the record: rating and value from the first two fields, if there are two. */
  function LuckOf(node: Node, mr: MoveRecord): (r: MoveRecord)
    ensures r == mr.(luck := r.luck)
    ensures var parts := Text.Fields(GetProperty(node, "LU"));
      if |parts| >= 2 then r.luck == Some(LuckRating(parts[0], Text.ParseNum(parts[1]))) else r.luck == mr.luck
  {
    var lu := GetProperty(node, "LU");
    if lu == "" then mr
    else
      var parts := Text.Fields(lu);
      if |parts| < 2 then mr
      else mr.(luck := Some(LuckRating(parts[0], Text.ParseNum(parts[1]))))
  }

  /** What `parseSkill` leaves in the record: rating and error from the first two fields, if there are two. */
  function SkillOf(node: Node, mr: MoveRecord): (r: MoveRecord)
    ensures r == mr.(skill := r.skill)
    ensures var parts := Text.Fields(GetProperty(node, "SK"));
      if |parts| >= 2 then r.skill == Some(SkillRating(parts[0], Text.ParseNum(parts[1]))) else r.skill == mr.skill
  {
    var sk := GetProperty(node, "SK");
    if sk == "" then mr
    else
      var parts := Text.Fields(sk);
      if |parts| < 2 then mr
      else mr.(skill := Some(SkillRating(parts[0], Text.ParseNum(parts[1]))))
  }
}
