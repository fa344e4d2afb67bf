/**
 * Properties of the game-tree grammar of parser.go: what a value, a name and a
 * discarded variation consume, how nodes are linked, and how complete game
 * trees behave when more input follows them.
 */
module SgfProperties {
  import opened Wrappers
  import Text
  import opened SgfGrammar

  // ---------------------------------------------------------------------------
  // Values: a backslash escapes any character, ']' ends the value

  /** The escaping a writer applies so that a value reads back unchanged. */
  function Escape(v: string): string {
    if v == [] then []
    else (if v[0] == ']' || v[0] == '\\' then ['\\', v[0]] else [v[0]]) + Escape(v[1..])
  }

  lemma {:induction false} EscapedBody(v: string, acc: string, r: seq<char>)
    ensures ValueBody(Escape(v) + [']'] + r, false, acc) == Ok((acc + v, r))
    decreases |v|
  {
    var s := Escape(v) + [']'] + r;
    if v == [] {
      assert s == [']'] + r;
      assert s[1..] == r;
      assert acc + v == acc;
    } else if v[0] == ']' || v[0] == '\\' {
      assert s == ['\\', v[0]] + (Escape(v[1..]) + [']'] + r);
      assert s[1..][1..] == Escape(v[1..]) + [']'] + r;
      EscapedBody(v[1..], acc + [v[0]], r);
      assert acc + [v[0]] + v[1..] == acc + v;
    } else {
      assert s == [v[0]] + (Escape(v[1..]) + [']'] + r);
      EscapedBody(v[1..], acc + [v[0]], r);
      assert acc + [v[0]] + v[1..] == acc + v;
    }
  }

  /** Any string, escaped and bracketed, is read back exactly, and the input after ']' is left. */
  lemma ValueRoundTrip(v: string, r: seq<char>)
    ensures PropValue(['['] + Escape(v) + [']'] + r) == Ok((v, r))
  {
    var s := ['['] + Escape(v) + [']'] + r;
    assert s[1..] == Escape(v) + [']'] + r;
    EscapedBody(v, [], r);
    assert [] + v == v;
  }

  /** `a\]b` reads as `a]b`: the escaped bracket does not end the value. */
  lemma EscapedBracketValue()
    ensures PropValue("[a\\]b]") == Ok(("a]b", []))
  {
    assert Escape("a]b") == "a\\]b" by {
      assert Escape("b") == "b";
      assert Escape("]b") == "\\]b";
    }
    ValueRoundTrip("a]b", []);
    assert ['['] + "a\\]b" + [']'] + [] == "[a\\]b]";
  }

  /** Input that runs out before any ']' is an end-of-input error. */
  lemma {:induction false} UnterminatedValue(s: seq<char>, escaped: bool, acc: string)
    requires forall i :: 0 <= i < |s| ==> s[i] != ']'
    ensures ValueBody(s, escaped, acc) == Err(UnexpectedEof)
    decreases |s|
  {
    if s != [] {
      UnterminatedValue(s[1..], s[0] == '\\' && !escaped, if escaped || s[0] != '\\' then acc + [s[0]] else acc);
    }
  }

  // ---------------------------------------------------------------------------
  // Names

  predicate IsName(k: string) {
    1 <= |k| <= 2 && forall i :: 0 <= i < |k| ==> IsLetter(k[i])
  }

  /**
   * A name starting at a letter is one or two letters taken from the front;
   * reading stops after the second letter or before the first non-letter.
   */
  lemma NameShape(s: seq<char>)
    requires s != [] && IsLetter(s[0]) && NameFrom(s, []).Ok?
    ensures var (name, rest) := NameFrom(s, []).value;
      IsName(name) && s == name + rest && (|name| == 2 || (rest != [] && !IsLetter(rest[0])))
  {
    assert [] + [s[0]] == [s[0]];
    assert NameFrom(s, []) == NameFrom(s[1..], [s[0]]);
    if |s| > 1 && IsLetter(s[1]) {
      assert s == [s[0], s[1]] + s[2..];
    } else {
      assert s == [s[0]] + s[1..];
    }
  }

  /** Every name a node's property loop stores is one or two letters. */
  lemma {:induction false} NodeKeysAreNames(s: seq<char>, props: Props)
    requires forall k :: k in props ==> IsName(k)
    requires NodeProps(s, props).Ok?
    ensures forall k :: k in NodeProps(s, props).value.0 ==> IsName(k)
    decreases |s|
  {
    var t := SkipWs(s);
    if t != [] && IsLetter(t[0]) {
      var ((name, values), rest) := Property(t).value;
      assert NameFrom(t, []).Ok?;
      NameShape(t);
      assert name == NameFrom(t, []).value.0;
      NodeKeysAreNames(rest, props[name := values]);
    }
  }

  /** In one node a repeated name keeps only the values read last. */
  lemma RepeatedNameReplaces(t: seq<char>, props: Props, name: string, first: seq<string>, second: seq<string>,
                             t2: seq<char>, t3: seq<char>)
    requires t != [] && IsLetter(t[0]) && Property(t) == Ok(((name, first), t2))
    requires t2 != [] && IsLetter(t2[0]) && Property(t2) == Ok(((name, second), t3))
    ensures NodeProps(t, props) == NodeProps(t3, props[name := second])
  {
    assert SkipWs(t) == t && SkipWs(t2) == t2;
    assert props[name := first][name := second] == props[name := second];
  }

  // ---------------------------------------------------------------------------
  // Discarded variations: depth counting over raw characters

  function Delta(c: char): int {
    if c == '(' then 1 else if c == ')' then -1 else 0
  }

  /** Opening minus closing parentheses in p, brackets and escapes included. */
  function Balance(p: seq<char>): int {
    if p == [] then 0 else Delta(p[0]) + Balance(p[1..])
  }

  /** p closes exactly `depth` open parentheses, and no proper prefix of it does. */
  predicate Closes(p: seq<char>, depth: nat) {
    depth + Balance(p) == 0 && forall k :: 0 <= k < |p| ==> depth + Balance(p[..k]) > 0
  }

  /** The skip consumes exactly a prefix that closes the open parentheses. */
  lemma {:induction false} SkipVariationConsumesClosing(p: seq<char>, rest: seq<char>, depth: nat)
    requires Closes(p, depth)
    ensures SkipVariation(p + rest, depth) == Ok(rest)
    decreases |p|
  {
    if p != [] {
      assert depth + Balance(p[..0]) > 0;
      var d' := depth + Delta(p[0]);
      forall k | 0 <= k <= |p[1..]|
        ensures Balance(p[..k + 1]) == Delta(p[0]) + Balance(p[1..][..k])
      {
        assert p[..k + 1][1..] == p[1..][..k];
      }
      assert p[..|p|] == p;
      assert d' >= 0 by {
        if |p| > 1 { assert depth + Balance(p[..1]) > 0; }
      }
      assert Closes(p[1..], d') by {
        forall k | 0 <= k < |p[1..]| ensures d' + Balance(p[1..][..k]) > 0 {
          assert depth + Balance(p[..k + 1]) > 0;
        }
      }
      assert (p + rest)[1..] == p[1..] + rest;
      SkipVariationConsumesClosing(p[1..], rest, d');
    } else {
      assert p + rest == rest;
    }
  }

  /** Conversely, whatever the skip leaves, it consumed a prefix that closes the open parentheses. */
  lemma {:induction false} SkipVariationLeavesAfterClosing(s: seq<char>, depth: nat)
    requires SkipVariation(s, depth).Ok?
    ensures var rest := SkipVariation(s, depth).value;
      |rest| <= |s| && s == s[..|s| - |rest|] + rest && Closes(s[..|s| - |rest|], depth)
    decreases |s|
  {
    var rest := SkipVariation(s, depth).value;
    if depth > 0 {
      var d' := depth + Delta(s[0]);
      SkipVariationLeavesAfterClosing(s[1..], d');
      var p := s[..|s| - |rest|];
      var p' := s[1..][..|s| - 1 - |rest|];
      assert p == [s[0]] + p';
      assert p[1..] == p';
      forall k | 0 <= k < |p| ensures depth + Balance(p[..k]) > 0 {
        if k > 0 {
          assert p[..k][1..] == p'[..k - 1];
        }
      }
    } else {
      assert s[..|s| - |rest|] == [];
    }
  }

  /** Brackets are not special while skipping: a ')' inside a value closes the variation. */
  lemma BracketsNotSpecialInVariation()
    ensures SkipVariation("[)]x", 1) == Ok("]x")
  {
    assert SkipVariation(")]x", 1) == SkipVariation("]x", 0);
  }

  // ---------------------------------------------------------------------------
  // The game loop's error case

  /** Inside a game, a character other than ';', '(', ')' or a blank is an error naming it. */
  lemma BodyUnexpectedChar(s: seq<char>, chain: seq<Props>)
    requires |chain| >= 1
    requires SkipWs(s) != [] && SkipWs(s)[0] !in {')', ';', '('}
    ensures GameBody(s, chain) == Err(UnexpectedChar(SkipWs(s)[0]))
  {
  }

  // ---------------------------------------------------------------------------
  // Linking nodes into a chain

  /** Linking a sequence of parsed nodes one by one, starting from the empty root. */
  function LinkAll(chain: seq<Props>, nodes: seq<Props>): (r: seq<Props>)
    requires |chain| >= 1
    ensures |r| >= 1
    decreases |nodes|
  {
    if nodes == [] then chain else LinkAll(Link(chain, nodes[0]), nodes[1..])
  }

  lemma {:induction false} LinkAllAfterRoot(chain: seq<Props>, nodes: seq<Props>)
    requires |chain| >= 1 && |chain[0]| > 0
    ensures LinkAll(chain, nodes) == chain + nodes
    decreases |nodes|
  {
    if nodes != [] {
      LinkAllAfterRoot(chain + [nodes[0]], nodes[1..]);
      assert chain + [nodes[0]] + nodes[1..] == chain + nodes;
    }
  }

  /**
   * Nodes parsed while the root has no properties replace it; from the first
   * node with properties on, each node becomes the child of the previous one.
   */
  lemma {:induction false} LinkAllFromFirstNonEmpty(chain: seq<Props>, nodes: seq<Props>, j: nat)
    requires |chain| == 1 && |chain[0]| == 0
    requires j < |nodes| && |nodes[j]| > 0
    requires forall i :: 0 <= i < j ==> |nodes[i]| == 0
    ensures LinkAll(chain, nodes) == nodes[j..]
    decreases |nodes|
  {
    if j == 0 {
      LinkAllAfterRoot([nodes[0]], nodes[1..]);
      assert [nodes[0]] + nodes[1..] == nodes;
    } else {
      LinkAllFromFirstNonEmpty([nodes[0]], nodes[1..], j - 1);
      assert nodes[1..][j - 1..] == nodes[j..];
    }
  }

  /** Following first children through a linked chain visits exactly its nodes, in order. */
  lemma {:induction false} WalkChain(ns: seq<Props>)
    requires |ns| >= 1
    ensures Walk(Chain(ns)) == ns
    decreases |ns|
  {
    if |ns| > 1 {
      WalkChain(ns[1..]);
    }
  }

  /** Every node of a linked chain has at most one child. */
  predicate Linear(n: Node)
    decreases n
  {
    |n.children| <= 1 && forall c :: c in n.children ==> Linear(c)
  }

  lemma {:induction false} ChainIsLinear(ns: seq<Props>)
    requires |ns| >= 1
    ensures Linear(Chain(ns))
    decreases |ns|
  {
    if |ns| > 1 {
      ChainIsLinear(ns[1..]);
    }
  }

  // ---------------------------------------------------------------------------
  // More input after a complete construct does not change how it parses

  lemma {:induction false} SkipWsExtend(s: seq<char>, r: seq<char>)
    requires SkipWs(s) != []
    ensures SkipWs(s + r) == SkipWs(s) + r
    decreases |s|
  {
    if IsWs(s[0]) {
      assert (s + r)[1..] == s[1..] + r;
      SkipWsExtend(s[1..], r);
    }
  }

  lemma {:induction false} ValueBodyExtend(s: seq<char>, escaped: bool, acc: string, r: seq<char>)
    requires ValueBody(s, escaped, acc).Ok?
    ensures ValueBody(s + r, escaped, acc)
      == Ok((ValueBody(s, escaped, acc).value.0, ValueBody(s, escaped, acc).value.1 + r))
    decreases |s|
  {
    assert (s + r)[1..] == s[1..] + r;
    if escaped {
      ValueBodyExtend(s[1..], false, acc + [s[0]], r);
    } else if s[0] == '\\' {
      ValueBodyExtend(s[1..], true, acc, r);
    } else if s[0] != ']' {
      ValueBodyExtend(s[1..], false, acc + [s[0]], r);
    }
  }

  lemma PropValueExtend(s: seq<char>, r: seq<char>)
    requires PropValue(s).Ok?
    ensures PropValue(s + r) == Ok((PropValue(s).value.0, PropValue(s).value.1 + r))
  {
    assert (s + r)[1..] == s[1..] + r;
    ValueBodyExtend(s[1..], false, [], r);
  }

  lemma {:induction false} ValuesExtend(s: seq<char>, acc: seq<string>, r: seq<char>)
    requires Values(s, acc).Ok?
    ensures Values(s + r, acc) == Ok((Values(s, acc).value.0, Values(s, acc).value.1 + r))
    decreases |s|
  {
    var t := SkipWs(s);
    SkipWsExtend(s, r);
    if t[0] == '[' {
      var (v, rest) := PropValue(t).value;
      PropValueExtend(t, r);
      ValuesExtend(rest, acc + [v], r);
    }
  }

  lemma NameFromExtend(s: seq<char>, name: string, r: seq<char>)
    requires |name| <= 1 && NameFrom(s, name).Ok?
    ensures NameFrom(s + r, name) == Ok((NameFrom(s, name).value.0, NameFrom(s, name).value.1 + r))
    decreases |s|
  {
    assert (s + r)[1..] == s[1..] + r;
    if IsLetter(s[0]) && |name| + 1 < 2 {
      NameFromExtend(s[1..], name + [s[0]], r);
    }
  }

  lemma PropertyExtend(s: seq<char>, r: seq<char>)
    requires Property(s).Ok?
    ensures Property(s + r) == Ok((Property(s).value.0, Property(s).value.1 + r))
  {
    var (name, rest) := NameFrom(s, []).value;
    NameFromExtend(s, [], r);
    ValuesExtend(rest, [], r);
  }

  lemma {:induction false} NodePropsExtend(s: seq<char>, props: Props, r: seq<char>)
    requires NodeProps(s, props).Ok?
    ensures NodeProps(s + r, props) == Ok((NodeProps(s, props).value.0, NodeProps(s, props).value.1 + r))
    decreases |s|
  {
    var t := SkipWs(s);
    SkipWsExtend(s, r);
    if IsLetter(t[0]) {
      var ((name, values), rest) := Property(t).value;
      PropertyExtend(t, r);
      NodePropsExtend(rest, props[name := values], r);
    }
  }

  lemma NodeSpecExtend(s: seq<char>, r: seq<char>)
    requires NodeSpec(s).Ok?
    ensures NodeSpec(s + r) == Ok((NodeSpec(s).value.0, NodeSpec(s).value.1 + r))
  {
    assert (s + r)[1..] == s[1..] + r;
    NodePropsExtend(s[1..], map[], r);
  }

  lemma {:induction false} SkipVariationExtend(s: seq<char>, depth: nat, r: seq<char>)
    requires depth > 0 && SkipVariation(s, depth).Ok?
    ensures SkipVariation(s + r, depth) == Ok(SkipVariation(s, depth).value + r)
    decreases |s|
  {
    assert (s + r)[1..] == s[1..] + r;
    var d' := if s[0] == '(' then depth + 1 else if s[0] == ')' then depth - 1 else depth;
    if d' > 0 {
      SkipVariationExtend(s[1..], d', r);
    }
  }

  lemma {:induction false} GameBodyExtend(s: seq<char>, chain: seq<Props>, r: seq<char>)
    requires |chain| >= 1 && GameBody(s, chain).Ok?
    ensures GameBody(s + r, chain) == Ok((GameBody(s, chain).value.0, GameBody(s, chain).value.1 + r))
    decreases |s|
  {
    var t := SkipWs(s);
    assert t != [];
    SkipWsExtend(s, r);
    var t' := t + r;
    assert SkipWs(s + r) == t' && t'[0] == t[0];
    if t[0] == ')' {
      assert t'[1..] == t[1..] + r;
    } else if t[0] == ';' {
      NodeSpecExtend(t, r);
      var (node, rest) := NodeSpec(t).value;
      assert GameBody(s, chain) == GameBody(rest, Link(chain, node)) by {
        assert NodeSpec(t) == Ok((node, rest));
      }
      assert GameBody(s + r, chain) == GameBody(rest + r, Link(chain, node)) by {
        assert NodeSpec(t') == Ok((node, rest + r));
      }
      GameBodyExtend(rest, Link(chain, node), r);
    } else {
      assert t[0] == '(';
      assert t'[1..] == t[1..] + r;
      SkipVariationExtend(t[1..], 1, r);
      var rest := SkipVariation(t[1..], 1).value;
      assert GameBody(s, chain) == GameBody(rest, chain) by {
        assert SkipVariation(t[1..], 1) == Ok(rest);
      }
      assert GameBody(s + r, chain) == GameBody(rest + r, chain) by {
        assert SkipVariation(t'[1..], 1) == Ok(rest + r);
      }
      GameBodyExtend(rest, chain, r);
    }
  }

  /** A complete game tree parses the same whatever input follows it. */
  lemma GameSpecExtend(s: seq<char>, r: seq<char>)
    requires GameSpec(s).Ok?
    ensures GameSpec(s + r) == Ok((GameSpec(s).value.0, GameSpec(s).value.1 + r))
  {
    assert (s + r)[1..] == s[1..] + r;
    GameBodyExtend(s[1..], [map[]], r);
  }

  // ---------------------------------------------------------------------------
  // Several game trees in one input

  function Concat(texts: seq<seq<char>>): seq<char> {
    if texts == [] then [] else texts[0] + Concat(texts[1..])
  }

  /** After a complete game tree, reading continues with what follows it. */
  lemma TreesAfterGame(a: seq<char>, b: seq<char>, g: Node, acc: seq<Node>)
    requires GameSpec(a) == Ok((g, []))
    ensures Trees(a + b, acc) == Trees(b, acc + [g])
  {
    GameSpecExtend(a, b);
    assert [] + b == b;
    assert (a + b)[0] == '(';
    assert SkipWs(a + b) == a + b;
  }

  /** Each text is one complete game tree whose root is the matching entry of `roots`. */
  predicate CompleteGames(texts: seq<seq<char>>, roots: seq<Node>)
    decreases |texts|
  {
    |texts| == |roots| &&
    (texts == [] || (GameSpec(texts[0]) == Ok((roots[0], [])) && CompleteGames(texts[1..], roots[1..])))
  }

  /**
   * Game trees written one after another give one root each, in the order
   * they appear, and nothing of one tree leaks into the next.
   */
  lemma {:induction false} GamesInEncounterOrder(texts: seq<seq<char>>, roots: seq<Node>, acc: seq<Node>)
    requires CompleteGames(texts, roots)
    ensures Trees(Concat(texts), acc) == Ok((acc + roots, []))
    decreases |texts|
  {
    if texts == [] {
      assert acc + roots == acc;
    } else {
      TreesAfterFirst(texts, roots[0], acc);
      GamesInEncounterOrder(texts[1..], roots[1..], acc + [roots[0]]);
      assert acc + [roots[0]] + roots[1..] == acc + roots;
    }
  }

  lemma TreesAfterFirst(texts: seq<seq<char>>, g: Node, acc: seq<Node>)
    requires texts != [] && GameSpec(texts[0]) == Ok((g, []))
    ensures Trees(Concat(texts), acc) == Trees(Concat(texts[1..]), acc + [g])
  {
    assert Concat(texts) == texts[0] + Concat(texts[1..]);
    TreesAfterGame(texts[0], Concat(texts[1..]), g, acc);
  }

  /** Two concatenated game trees give two roots in encounter order. */
  lemma TwoGames(a: seq<char>, b: seq<char>, g1: Node, g2: Node)
    requires GameSpec(a) == Ok((g1, [])) && GameSpec(b) == Ok((g2, []))
    ensures Trees(a + b, []) == Ok(([g1, g2], []))
  {
    var texts := [a, b];
    assert Concat(texts[1..]) == b by {
      assert texts[1..] == [b];
      assert Concat([b][1..]) == [];
    }
    assert Concat(texts) == a + b;
    assert CompleteGames(texts, [g1, g2]) by {
      assert [g1, g2][1..] == [g2] && texts[1..][1..] == [] && [g2][1..] == [];
    }
    GamesInEncounterOrder(texts, [g1, g2], []);
    assert [] + [g1, g2] == [g1, g2];
  }

  // ---------------------------------------------------------------------------
  // Integer properties

  /**
   * A value whose digits (after an optional sign) are broken by another
   * character within the first 19 reads as 0: the syntax error is dropped.
   */
  lemma GetPropertyIntSyntax(node: Node, name: string, k: nat)
    requires GetProperty(node, name) != []
    requires var str := GetProperty(node, name);
      var body := if str[0] == '-' || str[0] == '+' then str[1..] else str;
      k < |body| && k <= 18 && !Text.IsDigit(body[k]) && forall j :: 0 <= j < k ==> Text.IsDigit(body[j])
    ensures GetPropertyInt(node, name) == 0
  {
    Text.AtoiSyntax(GetProperty(node, name), k);
  }
}
