/**
 * The game-tree grammar that parser.go accepts, as functions over the
 * characters not yet consumed. Each function returns what it parsed and the
 * input that remains; the imperative reader in SgfParser is proved to
 * compute exactly these.
 */
module SgfGrammar {
  import opened Wrappers
  import Text

  /** A node's properties: name to its list of raw values. */
  type Props = map<string, seq<string>>

  /** `SGFNode`: properties and child nodes. */
  datatype Node = Node(properties: Props, children: seq<Node>)

  datatype ParseError =
    | UnexpectedEof            // the reader ran out inside a construct
    | ExpectedGameStart        // "expected '(' at start of game"
    | ExpectedNodeStart        // "expected ';' at start of node"
    | ExpectedValueStart       // "expected '[' at start of property value"
    | UnexpectedChar(c: char)  // "unexpected character in game tree"

  /** What a parsing function returns: the value and the remaining input, or an error. */
  type Parsed<T> = Result<(T, seq<char>), ParseError>

  /** The value of a parse without the remaining input. */
  function Outcome<T>(p: Parsed<T>): Result<T, ParseError> {
    match p
    case Ok((v, _)) => Ok(v)
    case Err(e) => Err(e)
  }

  predicate IsWs(c: char) { c == ' ' || c == '\t' || c == '\n' || c == '\r' }

  predicate IsLetter(c: char) { ('A' <= c <= 'Z') || ('a' <= c <= 'z') }

  /** `skipWhitespace`: drops space, tab, CR and LF up to the first other character. */
  function SkipWs(s: seq<char>): (r: seq<char>)
    ensures |r| <= |s|
    ensures r == [] || !IsWs(r[0])
    decreases |s|
  {
    if s != [] && IsWs(s[0]) then SkipWs(s[1..]) else s
  }

  /** What SkipWs drops is exactly the run of blanks at the front. */
  lemma {:induction false} SkipWsDropsBlanks(s: seq<char>)
    ensures var r := SkipWs(s);
      r == s[|s| - |r|..] && forall i :: 0 <= i < |s| - |r| ==> IsWs(s[i])
    decreases |s|
  {
    if s != [] && IsWs(s[0]) {
      SkipWsDropsBlanks(s[1..]);
    }
  }

  // ---------------------------------------------------------------------------
  // Property values

  /** The body of a value after '[': a backslash takes the next character literally, ']' ends it. */
  function ValueBody(s: seq<char>, escaped: bool, acc: string): (r: Parsed<string>)
    ensures r.Ok? ==> |r.value.1| < |s|
    ensures r.Err? ==> r.error == UnexpectedEof
    decreases |s|
  {
    if s == [] then Err(UnexpectedEof)
    else if escaped then ValueBody(s[1..], false, acc + [s[0]])
    else if s[0] == '\\' then ValueBody(s[1..], true, acc)
    else if s[0] == ']' then Ok((acc, s[1..]))
    else ValueBody(s[1..], false, acc + [s[0]])
  }

  /** `parsePropertyValue`. */
  function PropValue(s: seq<char>): (r: Parsed<string>)
    ensures r.Ok? ==> |r.value.1| < |s|
  {
    if s == [] || s[0] != '[' then Err(ExpectedValueStart) else ValueBody(s[1..], false, [])
  }

  /** The property values that follow a name: each '['-value after optional whitespace. */
  function Values(s: seq<char>, acc: seq<string>): (r: Parsed<seq<string>>)
    ensures r.Ok? ==> |r.value.1| <= |s|
    ensures r.Ok? ==> r.value.1 != [] && r.value.1[0] != '['
    decreases |s|
  {
    var t := SkipWs(s);
    if t == [] then Err(UnexpectedEof)
    else if t[0] != '[' then Ok((acc, t))
    else match PropValue(t)
      case Err(e) => Err(e)
      case Ok((v, rest)) => Values(rest, acc + [v])
  }

  /** The name loop of `parseProperty`: letters up to two, putting back the first non-letter. */
  function NameFrom(s: seq<char>, name: string): (r: Parsed<string>)
    requires |name| <= 1
    ensures r.Ok? ==> |r.value.1| <= |s|
    ensures r.Ok? && s != [] && IsLetter(s[0]) ==> |r.value.1| < |s|
    decreases |s|
  {
    if s == [] then Err(UnexpectedEof)
    else if !IsLetter(s[0]) then Ok((name, s))
    else if |name| + 1 >= 2 then Ok((name + [s[0]], s[1..]))
    else NameFrom(s[1..], name + [s[0]])
  }

  /** `parseProperty`: a name and its values. */
  function Property(s: seq<char>): (r: Parsed<(string, seq<string>)>)
    ensures r.Ok? ==> |r.value.1| <= |s|
    ensures r.Ok? && s != [] && IsLetter(s[0]) ==> |r.value.1| < |s|
  {
    match NameFrom(s, [])
    case Err(e) => Err(e)
    case Ok((name, rest)) =>
      match Values(rest, [])
      case Err(e) => Err(e)
      case Ok((values, rest')) => Ok(((name, values), rest'))
  }

  /** The property loop of `parseNode`: a repeated name replaces the earlier values. */
  function NodeProps(s: seq<char>, props: Props): (r: Parsed<Props>)
    ensures r.Ok? ==> |r.value.1| <= |s|
    ensures r.Ok? ==> r.value.1 != [] && !IsLetter(r.value.1[0])
    decreases |s|
  {
    var t := SkipWs(s);
    if t == [] then Err(UnexpectedEof)
    else if !IsLetter(t[0]) then Ok((props, t))
    else match Property(t)
      case Err(e) => Err(e)
      case Ok(((name, values), rest)) => NodeProps(rest, props[name := values])
  }

  /** `parseNode`. */
  function NodeSpec(s: seq<char>): (r: Parsed<Props>)
    ensures r.Ok? ==> |r.value.1| < |s|
  {
    if s == [] || s[0] != ';' then Err(ExpectedNodeStart) else NodeProps(s[1..], map[])
  }

  // ---------------------------------------------------------------------------
  // Games

  /** The depth-counting loop that discards a variation; `depth` parentheses are open. */
  function SkipVariation(s: seq<char>, depth: nat): (r: Result<seq<char>, ParseError>)
    ensures r.Ok? ==> |r.value| <= |s|
    ensures r.Ok? && depth > 0 ==> |r.value| < |s|
    ensures r.Err? ==> r.error == UnexpectedEof
    decreases |s|
  {
    if depth == 0 then Ok(s)
    else if s == [] then Err(UnexpectedEof)
    else if s[0] == '(' then SkipVariation(s[1..], depth + 1)
    else if s[0] == ')' then SkipVariation(s[1..], depth - 1)
    else SkipVariation(s[1..], depth)
  }

  /**
   * Adds a parsed node to the chain root..current. While the root has no
   * properties the node replaces it; otherwise it becomes the child of the
   * current node.
   */
  function Link(chain: seq<Props>, node: Props): (r: seq<Props>)
    requires |chain| >= 1
    ensures |r| >= 1
  {
    if |chain[0]| == 0 then [node] else chain + [node]
  }

  /** The loop of `parseGame` after '(': nodes, discarded variations, up to ')'. */
  function GameBody(s: seq<char>, chain: seq<Props>): (r: Parsed<seq<Props>>)
    requires |chain| >= 1
    ensures r.Ok? ==> |r.value.1| < |s|
    ensures r.Ok? ==> |r.value.0| >= 1
    decreases |s|
  {
    var t := SkipWs(s);
    if t == [] then Err(UnexpectedEof)
    else if t[0] == ')' then Ok((chain, t[1..]))
    else if t[0] == ';' then
      match NodeSpec(t)
      case Err(e) => Err(e)
      case Ok((node, rest)) => GameBody(rest, Link(chain, node))
    else if t[0] == '(' then
      match SkipVariation(t[1..], 1)
      case Err(e) => Err(e)
      case Ok(rest) => GameBody(rest, chain)
    else Err(UnexpectedChar(t[0]))
  }

  // One step of the game loop each, for the proof of the imperative reader.

  lemma BodyAfterBlanks(s: seq<char>, chain: seq<Props>)
    requires |chain| >= 1
    ensures GameBody(SkipWs(s), chain) == GameBody(s, chain)
  {
    assert SkipWs(SkipWs(s)) == SkipWs(s);
  }

  lemma BodyAfterNode(t: seq<char>, chain: seq<Props>)
    requires |chain| >= 1 && t != [] && t[0] == ';' && NodeSpec(t).Ok?
    ensures GameBody(t, chain) == GameBody(NodeSpec(t).value.1, Link(chain, NodeSpec(t).value.0))
  {
    assert SkipWs(t) == t;
  }

  lemma BodyAfterVariation(t: seq<char>, chain: seq<Props>)
    requires |chain| >= 1 && t != [] && t[0] == '(' && SkipVariation(t[1..], 1).Ok?
    ensures GameBody(t, chain) == GameBody(SkipVariation(t[1..], 1).value, chain)
  {
    assert SkipWs(t) == t;
  }

  /** The linked nodes of a chain: each node's only child is the next one. */
  function Chain(ns: seq<Props>): (n: Node)
    requires |ns| >= 1
    decreases |ns|
  {
    if |ns| == 1 then Node(ns[0], []) else Node(ns[0], [Chain(ns[1..])])
  }

  /** The nodes met by following first children from `n`. */
  function Walk(n: Node): (r: seq<Props>)
    ensures |r| >= 1 && r[0] == n.properties
    decreases n
  {
    if |n.children| == 0 then [n.properties]
    else
      assert n.children[0] in n.children;
      [n.properties] + Walk(n.children[0])
  }

  /** The game a finished body yields: the chain's root with its linked descendants. */
  function Finish(body: Parsed<seq<Props>>): (r: Parsed<Node>)
    requires body.Ok? ==> |body.value.0| >= 1
    ensures r.Ok? <==> body.Ok?
    ensures r.Ok? ==> r.value.1 == body.value.1 && r.value.0.properties == body.value.0[0]
  {
    match body
    case Err(e) => Err(e)
    case Ok((chain, rest)) => Ok((Chain(chain), rest))
  }

  /** `parseGame`. */
  function GameSpec(s: seq<char>): (r: Parsed<Node>)
    ensures r.Ok? ==> |r.value.1| < |s|
  {
    if s == [] || s[0] != '(' then Err(ExpectedGameStart)
    else Finish(GameBody(s[1..], [map[]]))
  }

  /** `parseGameTree`: games while the next non-blank character is '('. */
  function Trees(s: seq<char>, acc: seq<Node>): (r: Parsed<seq<Node>>)
    decreases |s|
  {
    var t := SkipWs(s);
    if t == [] || t[0] != '(' then Ok((acc, t))
    else match GameSpec(t)
      case Err(e) => Err(e)
      case Ok((g, rest)) => Trees(rest, acc + [g])
  }

  // ---------------------------------------------------------------------------
  // Property lookup (getProperty, getPropertyInt, hasProperty)

  /** `getProperty`: the first value, or "" when the property is absent or has no value. */
  function GetProperty(node: Node, name: string): (v: string)
    ensures name in node.properties && node.properties[name] != [] ==> v == node.properties[name][0]
    ensures v != "" ==> name in node.properties && node.properties[name] != [] && v == node.properties[name][0]
    ensures name !in node.properties || node.properties[name] == [] ==> v == ""
  {
    if name in node.properties && |node.properties[name]| > 0 then node.properties[name][0] else ""
  }

  /**
   * `getPropertyInt`: the first value read by Atoi, 0 when it is empty. The
   * error is dropped, so a value Atoi refuses gives what Atoi returns with
   * its error: 0 on a syntax error (`Text.AtoiSyntax`), the nearest 64-bit
   * bound on a range error.
   */
  function GetPropertyInt(node: Node, name: string): (v: int)
    ensures GetProperty(node, name) == "" ==> v == 0
    ensures Text.Atoi(GetProperty(node, name)).ok ==> v == Text.Atoi(GetProperty(node, name)).value
    ensures !Text.Atoi(GetProperty(node, name)).ok ==> v == Text.Atoi(GetProperty(node, name)).value
  {
    var str := GetProperty(node, name);
    if str == "" then 0 else Text.Atoi(str).value
  }

  /** `hasProperty`: the name is present, even with no value. */
  predicate HasProperty(node: Node, name: string) {
    name in node.properties
  }
}
