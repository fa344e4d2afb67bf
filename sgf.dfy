/**
 * `ParseSGF` of parser.go: read every game tree of the input, refuse an
 * input with none, and convert the trees into a match.
 */
module Sgf {
  import opened Wrappers
  import opened Types
  import opened SgfGrammar
  import opened SgfParser
  import opened SgfProperties
  import opened Converter
  import opened ConverterProperties

  /** The three ways `ParseSGF` fails, each wrapping what went wrong. */
  datatype SgfError =
    | ParseFailed(cause: ParseError)   // "failed to parse SGF"
    | EmptySgf                         // "empty SGF file"
    | ConvertFailed(message: string)   // "failed to convert SGF to match"

  /** What `ParseSGF` returns for an input. */
  function SgfResult(input: seq<char>): Result<Match, SgfError> {
    match Outcome(Trees(input, []))
    case Err(e) => Err(ParseFailed(e))
    case Ok(roots) =>
      if roots == [] then Err(EmptySgf)
      else match MatchOf(roots)
        case Err(m) => Err(ConvertFailed(m))
        case Ok(m) => Ok(m)
  }

  /** `ParseSGF`, with the reader's contents given as a sequence. */
  method ParseSGF(input: seq<char>) returns (r: Result<Match, SgfError>)
    ensures r == SgfResult(input)
  {
    var parser := new SGFParser(input);
    var nodes := parser.ParseGameTree();
    if nodes.Err? {
      return Err(ParseFailed(nodes.error));
    }
    if |nodes.value| == 0 {
      return Err(EmptySgf);
    }
    var m := ConvertNodesToMatch(nodes.value);
    if m.Err? {
      // The conversion fails only when there are no roots, which the check
      // above has already refused.
      assert false;
    }
    return Ok(m.value);
  }

  /** The trees read so far are never dropped. */
  lemma {:induction false} TreesKeepEarlier(s: seq<char>, acc: seq<Node>)
    ensures Trees(s, acc).Ok? ==> |Trees(s, acc).value.0| >= |acc|
    decreases |s|
  {
    var t := SkipWs(s);
    if t != [] && t[0] == '(' {
      match GameSpec(t)
      case Err(_) =>
      case Ok((g, rest)) =>
        TreesKeepEarlier(rest, acc + [g]);
    }
  }

  /**
   * An input is an empty SGF file exactly when its first non-blank character
   * is not '(' or there is none: text before the first tree is not an error,
   * it ends the reading at once.
   */
  lemma EmptyExactly(input: seq<char>)
    ensures SgfResult(input) == Err(EmptySgf) <==> (SkipWs(input) == [] || SkipWs(input)[0] != '(')
  {
    var t := SkipWs(input);
    if t != [] && t[0] == '(' {
      match GameSpec(t)
      case Err(_) =>
      case Ok((g, rest)) =>
        assert [] + [g] == [g];
        assert Trees(input, []) == Trees(rest, [g]);
        TreesKeepEarlier(rest, [g]);
    }
  }

  /** An input of blanks only is an empty SGF file. */
  lemma BlankInputIsEmpty(input: seq<char>)
    requires forall i :: 0 <= i < |input| ==> IsWs(input[i])
    ensures SgfResult(input) == Err(EmptySgf)
  {
    SkipWsDropsBlanks(input);
    EmptyExactly(input);
  }

  /** Complete game trees written one after another give a match with one game per tree, in order. */
  lemma CompleteTreesMatch(texts: seq<seq<char>>, roots: seq<Node>)
    requires CompleteGames(texts, roots) && roots != []
    ensures SgfResult(Concat(texts)).Ok?
    ensures SgfResult(Concat(texts)).value.games == GamesAlone(roots)
  {
    GamesInEncounterOrder(texts, roots, []);
    assert [] + roots == roots;
    MatchShape(roots);
  }
}
