/**
 * The SGF reader of parser.go: a character reader with one character of
 * push-back, and the recursive-descent methods that read a file into game
 * trees. Each method is proved to compute the matching function of
 * SgfGrammar on the characters it had not yet consumed.
 */
module SgfParser {
  import opened Wrappers
  import opened SgfGrammar

  /** `SGFParser`: the input, a read position, and the pushed-back character. */
  class SGFParser {
    const input: seq<char>
    var pos: nat
    var ch: char
    var hasChar: bool

    ghost predicate Valid()
      reads this
    {
      pos <= |input|
    }

    /** The characters the next reads will return, in order. */
    ghost function Rest(): seq<char>
      reads this
      requires Valid()
    {
      (if hasChar then [ch] else []) + input[pos..]
    }

    /** `NewSGFParser`. */
    constructor(input: seq<char>)
      ensures Valid() && Rest() == input
    {
      this.input := input;
      pos := 0;
      ch := ' ';
      hasChar := false;
    }

    /** `readChar`: the pushed-back character if there is one, else the next input character. */
    method ReadChar() returns (c: char, ok: bool)
      requires Valid()
      modifies this
      ensures Valid()
      ensures ok <==> old(Rest()) != []
      ensures ok ==> c == old(Rest())[0] && Rest() == old(Rest())[1..] && ch == c && !hasChar
      ensures !ok ==> Rest() == old(Rest())
    {
      if hasChar {
        hasChar := false;
        return ch, true;
      }
      if pos == |input| {
        return ' ', false;
      }
      c := input[pos];
      pos := pos + 1;
      ch := c;
      ok := true;
    }

    /** `peekChar`: the next character, left to be read again. */
    method PeekChar() returns (c: char, ok: bool)
      requires Valid()
      modifies this
      ensures Valid() && Rest() == old(Rest())
      ensures ok <==> Rest() != []
      ensures ok ==> c == Rest()[0] && hasChar && ch == c
    {
      if hasChar {
        return ch, true;
      }
      c, ok := ReadChar();
      if !ok {
        return;
      }
      ch := c;
      hasChar := true;
    }

    /** `unreadChar`: the last character read is read again next. */
    method UnreadChar()
      requires Valid()
      modifies this
      ensures Valid() && hasChar && ch == old(ch)
      ensures !old(hasChar) ==> Rest() == [old(ch)] + old(Rest())
      ensures old(hasChar) ==> Rest() == old(Rest())
    {
      hasChar := true;
    }

    /** `skipWhitespace`. */
    method SkipWhitespace()
      requires Valid()
      modifies this
      ensures Valid() && Rest() == SkipWs(old(Rest()))
    {
      while true
        invariant Valid() && SkipWs(Rest()) == SkipWs(old(Rest()))
        decreases |Rest()|
      {
        var c, ok := PeekChar();
        if !ok {
          return;
        }
        if IsWs(c) {
          c, ok := ReadChar();
        } else {
          return;
        }
      }
    }

    /** `parsePropertyValue`: a bracketed value with backslash escapes. */
    method ParsePropertyValue() returns (r: Result<string, ParseError>)
      requires Valid()
      modifies this
      ensures Valid()
      ensures r == Outcome(PropValue(old(Rest())))
      ensures r.Ok? ==> Rest() == PropValue(old(Rest())).value.1
    {
      var c, ok := ReadChar();
      if !ok || c != '[' {
        return Err(ExpectedValueStart);
      }
      var value: string := [];
      var escaped := false;
      while true
        invariant Valid() && ValueBody(Rest(), escaped, value) == PropValue(old(Rest()))
        decreases |Rest()|
      {
        c, ok := ReadChar();
        if !ok {
          return Err(UnexpectedEof);
        }
        if escaped {
          value := value + [c];
          escaped := false;
        } else if c == '\\' {
          escaped := true;
        } else if c == ']' {
          return Ok(value);
        } else {
          value := value + [c];
        }
      }
    }

    /** `parseProperty`: a name of one or two letters and its values. */
    method ParseProperty() returns (r: Result<(string, seq<string>), ParseError>)
      requires Valid()
      modifies this
      ensures Valid()
      ensures r == Outcome(Property(old(Rest())))
      ensures r.Ok? ==> Rest() == Property(old(Rest())).value.1
    {
      ghost var named := NameFrom(Rest(), []);
      var name: string := [];
      while true
        invariant Valid() && |name| <= 1 && NameFrom(Rest(), name) == named
        decreases |Rest()|
      {
        ghost var before := Rest();
        var c, ok := ReadChar();
        if !ok {
          return Err(UnexpectedEof);
        }
        if IsLetter(c) {
          name := name + [c];
          if |name| >= 2 {
            assert named == Ok((name, Rest()));
            break;
          }
        } else {
          UnreadChar();
          assert Rest() == before;
          assert named == Ok((name, Rest()));
          break;
        }
      }
      assert named == Ok((name, Rest()));
      ghost var afterName := Rest();
      var values: seq<string> := [];
      while true
        invariant Valid() && Values(Rest(), values) == Values(afterName, [])
        decreases |Rest()|
      {
        SkipWhitespace();
        var c, ok := PeekChar();
        if !ok {
          return Err(UnexpectedEof);
        }
        if c == '[' {
          var v := ParsePropertyValue();
          if v.Err? {
            return Err(v.error);
          }
          values := values + [v.value];
        } else {
          return Ok((name, values));
        }
      }
    }

    /** `parseNode`: ';' and the properties that follow; a repeated name keeps the last values. */
    method ParseNode() returns (r: Result<Props, ParseError>)
      requires Valid()
      modifies this
      ensures Valid()
      ensures r == Outcome(NodeSpec(old(Rest())))
      ensures r.Ok? ==> Rest() == NodeSpec(old(Rest())).value.1
    {
      var c, ok := ReadChar();
      if !ok || c != ';' {
        return Err(ExpectedNodeStart);
      }
      var props: Props := map[];
      while true
        invariant Valid() && NodeProps(Rest(), props) == NodeSpec(old(Rest()))
        decreases |Rest()|
      {
        SkipWhitespace();
        c, ok := PeekChar();
        if !ok {
          return Err(UnexpectedEof);
        }
        if IsLetter(c) {
          var p := ParseProperty();
          if p.Err? {
            return Err(p.error);
          }
          props := props[p.value.0 := p.value.1];
        } else {
          return Ok(props);
        }
      }
    }

    /**
     * `parseGame`: nodes up to the closing ')'. The nodes are kept as the
     * chain root..current; variations are read over by counting parentheses.
     */
    method ParseGame() returns (r: Result<Node, ParseError>)
      requires Valid()
      modifies this
      ensures Valid()
      ensures r == Outcome(GameSpec(old(Rest())))
      ensures r.Ok? ==> Rest() == GameSpec(old(Rest())).value.1
    {
      var c, ok := ReadChar();
      if !ok || c != '(' {
        return Err(ExpectedGameStart);
      }
      var chain: seq<Props> := [map[]];
      ghost var game := GameSpec(old(Rest()));
      while true
        invariant Valid() && |chain| >= 1
        invariant Finish(GameBody(Rest(), chain)) == game
        decreases |Rest()|
      {
        ghost var before := Rest();
        SkipWhitespace();
        BodyAfterBlanks(before, chain);
        c, ok := PeekChar();
        if !ok {
          return Err(UnexpectedEof);
        }
        if c == ')' {
          c, ok := ReadChar();
          return Ok(Chain(chain));
        } else if c == ';' {
          ghost var t := Rest();
          var node := ParseNode();
          if node.Err? {
            return Err(node.error);
          }
          BodyAfterNode(t, chain);
          chain := Link(chain, node.value);
        } else if c == '(' {
          ghost var t := Rest();
          c, ok := ReadChar();
          ok := SkipVariationChars();
          if !ok {
            return Err(UnexpectedEof);
          }
          BodyAfterVariation(t, chain);
        } else {
          return Err(UnexpectedChar(c));
        }
      }
    }

    /** The depth-counting loop of `parseGame` that reads over a variation after its '('. */
    method SkipVariationChars() returns (ok: bool)
      requires Valid()
      modifies this
      ensures Valid()
      ensures ok <==> SkipVariation(old(Rest()), 1).Ok?
      ensures ok ==> Rest() == SkipVariation(old(Rest()), 1).value
    {
      var depth: nat := 1;
      while depth > 0
        invariant Valid() && SkipVariation(Rest(), depth) == SkipVariation(old(Rest()), 1)
        decreases |Rest()|
      {
        var c;
        c, ok := ReadChar();
        if !ok {
          return false;
        }
        if c == '(' {
          depth := depth + 1;
        } else if c == ')' {
          depth := depth - 1;
        }
      }
      return true;
    }

    /** `parseGameTree`: one game per '(' met after blanks, until the input or the games end. */
    method ParseGameTree() returns (r: Result<seq<Node>, ParseError>)
      requires Valid()
      modifies this
      ensures Valid()
      ensures r == Outcome(Trees(old(Rest()), []))
    {
      var games: seq<Node> := [];
      while true
        invariant Valid() && Trees(Rest(), games) == Trees(old(Rest()), [])
        decreases |Rest()|
      {
        SkipWhitespace();
        var c, ok := PeekChar();
        if !ok || c != '(' {
          return Ok(games);
        }
        var g := ParseGame();
        if g.Err? {
          return Err(g.error);
        }
        games := games + [g.value];
      }
    }
  }
}
