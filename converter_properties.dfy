/**
 * What the conversion promises, stated against the functions of Converter:
 * which fields each root property can touch, how the rule and result values
 * read, which records a node yields, and how the games of a match line up
 * with the game trees.
 */
module ConverterProperties {
  import opened Wrappers
  import Text
  import opened Types
  import opened SgfGrammar
  import opened EncodedMoves
  import opened Analysis
  import opened Converter

  // ---------------------------------------------------------------------------
  // MI

  /** What MI may change: the match length, the game number and the score. */
  predicate OnlyMatchInfo(md: MatchMetadata, g: Game, md': MatchMetadata, g': Game) {
    md' == md.(matchLength := md'.matchLength) && g' == g.(gameNumber := g'.gameNumber, score := g'.score)
  }

  lemma MatchInfoPartTouchesOnly(part: string, md: MatchMetadata, g: Game)
    ensures OnlyMatchInfo(md, g, MatchInfoPart(part, md, g).0, MatchInfoPart(part, md, g).1)
  {
    var kv := Text.SplitFirst(TrimBrackets(part), ":");
    if |kv| == 2 {
      var v := Text.Atoi(kv[1]);
      var r := MatchInfoPart(part, md, g);
      assert r.0 == md || r.0 == md.(matchLength := v.value);
      assert r.1 == g || r.1 == g.(gameNumber := v.value) || r.1 == g.(score := (v.value, g.score.1))
        || r.1 == g.(score := (g.score.0, v.value));
    }
  }

  /** MI writes the match length into the metadata and the game number and score into the game, nothing else. */
  lemma {:induction false} MatchInfoTouchesOnly(parts: seq<string>, md: MatchMetadata, g: Game)
    ensures OnlyMatchInfo(md, g, MatchInfoParts(parts, md, g).0, MatchInfoParts(parts, md, g).1)
    decreases |parts|
  {
    if parts != [] {
      var r := MatchInfoPart(parts[0], md, g);
      MatchInfoPartTouchesOnly(parts[0], md, g);
      MatchInfoTouchesOnly(parts[1..], r.0, r.1);
    }
  }

  /** The game side of MI does not depend on the metadata it starts from. */
  lemma {:induction false} MatchInfoGameIndependent(parts: seq<string>, md1: MatchMetadata, md2: MatchMetadata, g: Game)
    ensures MatchInfoParts(parts, md1, g).1 == MatchInfoParts(parts, md2, g).1
    decreases |parts|
  {
    if parts != [] {
      var r1 := MatchInfoPart(parts[0], md1, g);
      var r2 := MatchInfoPart(parts[0], md2, g);
      assert r1.1 == r2.1;
      MatchInfoGameIndependent(parts[1..], r1.0, r2.0, r1.1);
    }
  }

  /** A key of no ':' and no brackets. */
  predicate PlainKey(key: string) {
    key != [] && forall i :: 0 <= i < |key| ==> key[i] != ':' && !IsBracket(key[i])
  }

  /** The text `key:d` has no "][" to split at, no brackets to trim and one ':' right after the key. */
  lemma KeyValueText(key: string, d: char)
    requires PlainKey(key) && Text.IsDigit(d)
    ensures var s := key + ":" + [d];
      Text.Split(s, "][") == [s] && TrimBrackets(s) == s && Text.SplitFirst(s, ":") == [key, [d]]
  {
    var s := key + ":" + [d];
    assert forall i :: 0 <= i < |s| ==> s[i] != ':' || i == |key| by {
      forall i | 0 <= i < |s| ensures s[i] != ':' || i == |key| {
        if i < |key| {
          assert s[i] == key[i];
        }
      }
    }
    assert Text.Split(s, "][") == [s] by {
      forall i | 0 <= i < |s| ensures s[i] != "]["[0] {
        if i < |key| {
          assert s[i] == key[i];
        }
      }
      Text.IndexOfAbsent(s, "][");
    }
    assert TrimBrackets(s) == s by {
      assert s[0] == key[0] && s[|s| - 1] == d;
    }
    assert Text.SplitFirst(s, ":") == [key, [d]] by {
      assert s[|key|..|key| + 1] == ":";
      Text.IndexOfFirst(s, ":", |key|);
      assert s[..|key|] == key && s[|key| + 1..] == [d];
    }
  }

  /** A lone `key:d` value, d one digit, reads as that key with the digit's value. */
  lemma SingleKeyValue(key: string, d: char, md: MatchMetadata, g: Game)
    requires PlainKey(key) && Text.IsDigit(d)
    ensures MatchInfo(key + ":" + [d], md, g) == MatchInfoPart(key + ":" + [d], md, g)
    ensures Text.SplitFirst(TrimBrackets(key + ":" + [d]), ":") == [key, [d]]
    ensures Text.Atoi([d]) == Text.IntParse(Text.DigitValue(d), true)
  {
    var s := key + ":" + [d];
    KeyValueText(key, d);
    assert MatchInfo(s, md, g) == MatchInfoPart(s, md, g) by {
      var r := MatchInfoPart(s, md, g);
      assert [s][1..] == [];
      assert MatchInfoParts([s], md, g) == MatchInfoParts([], r.0, r.1);
    }
    Text.AtoiOneDigit(d);
  }

  /** A single `length:7` value sets the match length and leaves the game alone. */
  lemma MatchLengthValue(md: MatchMetadata, g: Game)
    ensures MatchInfo("length:7", md, g) == (md.(matchLength := 7), g)
  {
    var key := "length";
    assert PlainKey(key);
    assert key + ":" + ['7'] == "length:7";
    SingleKeyValue(key, '7', md, g);
  }

  /** What one `key:d` part sets, d one digit: the match length, the game number or one of the two scores. */
  lemma KeyDigitPart(key: string, d: char, md: MatchMetadata, g: Game)
    requires PlainKey(key) && Text.IsDigit(d)
    ensures var v := Text.DigitValue(d);
      MatchInfoPart(key + ":" + [d], md, g) ==
        if key == "length" then (md.(matchLength := v), g)
        else if key == "game" then (md, g.(gameNumber := v))
        else if key == "ws" then (md, g.(score := (v, g.score.1)))
        else if key == "bs" then (md, g.(score := (g.score.0, v)))
        else (md, g)
  {
    KeyValueText(key, d);
    Text.AtoiOneDigit(d);
  }

  /** The bracket `strings.Trim` removes: a '[' before a part or a ']' after it changes nothing it reads. */
  lemma BracketedPart(x: string, md: MatchMetadata, g: Game)
    requires x != [] && !IsBracket(x[0]) && !IsBracket(x[|x| - 1])
    ensures MatchInfoPart("[" + x, md, g) == MatchInfoPart(x, md, g)
    ensures MatchInfoPart(x + "]", md, g) == MatchInfoPart(x, md, g)
  {
    assert ("[" + x)[1..] == x;
    assert Text.TrimLeftBy("[" + x, IsBracket) == x;
    assert TrimBrackets("[" + x) == TrimBrackets(x);
    assert (x + "]")[..|x|] == x;
    assert Text.TrimLeftBy(x + "]", IsBracket) == x + "]";
    assert Text.TrimRightBy(x + "]", IsBracket) == Text.TrimRightBy(x, IsBracket);
    assert TrimBrackets(x + "]") == TrimBrackets(x);
  }

  /** The text holds no `c`. */
  predicate Lacks(s: string, c: char) {
    forall i :: 0 <= i < |s| ==> s[i] != c
  }

  lemma LacksAppend(x: string, y: string, c: char)
    requires Lacks(x, c) && Lacks(y, c)
    ensures Lacks(x + y, c)
  {
    forall i | 0 <= i < |x + y| ensures (x + y)[i] != c {
      if i >= |x| {
        assert (x + y)[i] == y[i - |x|];
      }
    }
  }

  /** Splitting at the first "][" when the text before it holds no ']'. */
  lemma SplitAtFirst(a: string, b: string)
    requires Lacks(a, ']')
    ensures Text.Split(a + "][" + b, "][") == [a] + Text.Split(b, "][")
  {
    var s := a + "][" + b;
    assert s[|a|..|a| + 2] == "][";
    Text.IndexOfFirst(s, "][", |a|);
    assert s[..|a|] == a && s[|a| + 2..] == b;
  }

  /** A text with no '[' holds no "][", so splitting gives it whole. */
  lemma SplitWithoutOpen(s: string)
    requires Lacks(s, '[')
    ensures Text.Split(s, "][") == [s]
  {
    var sep := "][";
    forall j | 0 <= j <= |s| ensures !Text.OccursAt(s, sep, j) {
      if j + 2 <= |s| {
        assert s[j..j + 2][1] == s[j + 1] != sep[1];
      }
    }
    assert Text.IndexOf(s, sep).None?;
  }

  /** The fixed texts of the four parts hold no ']' (and the last no '['). */
  lemma KeyTextsLack()
    ensures Lacks("[length:", ']') && Lacks("game:", ']') && Lacks("ws:", ']') && Lacks("bs:", '[') && Lacks("]", '[')
  {
  }

  /** The MI text `[length:a][game:b][ws:c][bs:d]`, built part by part. */
  function FourKeyText(a: char, b: char, c: char, d: char): string {
    "[length:" + [a] + "][" + ("game:" + [b] + "][" + ("ws:" + [c] + "][" + ("bs:" + [d] + "]")))
  }

  /** `[length:a][game:b][ws:c][bs:d]` splits into its four parts, brackets still attached at the ends. */
  lemma FourPartSplit(a: char, b: char, c: char, d: char)
    requires Text.IsDigit(a) && Text.IsDigit(b) && Text.IsDigit(c) && Text.IsDigit(d)
    ensures Text.Split(FourKeyText(a, b, c, d), "][")
      == ["[length:" + [a], "game:" + [b], "ws:" + [c], "bs:" + [d] + "]"]
  {
    var p1, p2, p3, p4 := "[length:" + [a], "game:" + [b], "ws:" + [c], "bs:" + [d] + "]";
    KeyTextsLack();
    LacksAppend("[length:", [a], ']');
    LacksAppend("game:", [b], ']');
    LacksAppend("ws:", [c], ']');
    LacksAppend("bs:", [d], '[');
    LacksAppend("bs:" + [d], "]", '[');
    SplitWithoutOpen(p4);
    SplitAtFirst(p3, p4);
    SplitAtFirst(p2, p3 + "][" + p4);
    SplitAtFirst(p1, p2 + "][" + (p3 + "][" + p4));
  }

  /** Four parts are applied one after the other. */
  lemma FourParts(q1: string, q2: string, q3: string, q4: string, md: MatchMetadata, g: Game)
    ensures var r1 := MatchInfoPart(q1, md, g);
      var r2 := MatchInfoPart(q2, r1.0, r1.1);
      var r3 := MatchInfoPart(q3, r2.0, r2.1);
      MatchInfoParts([q1, q2, q3, q4], md, g) == MatchInfoPart(q4, r3.0, r3.1)
  {
    var r1 := MatchInfoPart(q1, md, g);
    var r2 := MatchInfoPart(q2, r1.0, r1.1);
    var r3 := MatchInfoPart(q3, r2.0, r2.1);
    var r4 := MatchInfoPart(q4, r3.0, r3.1);
    assert [q1, q2, q3, q4][1..] == [q2, q3, q4];
    assert [q2, q3, q4][1..] == [q3, q4];
    assert [q3, q4][1..] == [q4];
    assert [q4][1..] == [];
    assert MatchInfoParts([q4], r3.0, r3.1) == r4;
    assert MatchInfoParts([q3, q4], r2.0, r2.1) == r4;
    assert MatchInfoParts([q2, q3, q4], r1.0, r1.1) == r4;
  }

  /** The first part, `[length:a`, sets the match length. */
  lemma LengthPart(a: char, md: MatchMetadata, g: Game)
    requires Text.IsDigit(a)
    ensures MatchInfoPart("[length:" + [a], md, g) == (md.(matchLength := Text.DigitValue(a)), g)
  {
    var x := "length" + ":" + [a];
    assert PlainKey("length");
    assert "[length:" + [a] == "[" + x;
    BracketedPart(x, md, g);
    KeyDigitPart("length", a, md, g);
  }

  /** The second part, `game:b`, sets the game number. */
  lemma GamePart(b: char, md: MatchMetadata, g: Game)
    requires Text.IsDigit(b)
    ensures MatchInfoPart("game:" + [b], md, g) == (md, g.(gameNumber := Text.DigitValue(b)))
  {
    assert PlainKey("game");
    assert "game:" + [b] == "game" + ":" + [b];
    KeyDigitPart("game", b, md, g);
  }

  /** The third part, `ws:c`, sets the first score. */
  lemma WhiteScorePart(c: char, md: MatchMetadata, g: Game)
    requires Text.IsDigit(c)
    ensures MatchInfoPart("ws:" + [c], md, g) == (md, g.(score := (Text.DigitValue(c), g.score.1)))
  {
    assert PlainKey("ws");
    assert "ws:" + [c] == "ws" + ":" + [c];
    KeyDigitPart("ws", c, md, g);
  }

  /** The last part, `bs:d]`, sets the second score. */
  lemma BlackScorePart(d: char, md: MatchMetadata, g: Game)
    requires Text.IsDigit(d)
    ensures MatchInfoPart("bs:" + [d] + "]", md, g) == (md, g.(score := (g.score.0, Text.DigitValue(d))))
  {
    var x := "bs" + ":" + [d];
    assert PlainKey("bs");
    assert "bs:" + [d] + "]" == x + "]";
    BracketedPart(x, md, g);
    KeyDigitPart("bs", d, md, g);
  }

  /**
   * The documented form `[length:a][game:b][ws:c][bs:d]`, each value one
   * digit, sets the match length, the game number and both scores.
   */
  lemma FourKeyMatchInfo(a: char, b: char, c: char, d: char, md: MatchMetadata, g: Game)
    requires Text.IsDigit(a) && Text.IsDigit(b) && Text.IsDigit(c) && Text.IsDigit(d)
    ensures MatchInfo(FourKeyText(a, b, c, d), md, g) == (md.(matchLength := Text.DigitValue(a)),
         g.(gameNumber := Text.DigitValue(b), score := (Text.DigitValue(c), Text.DigitValue(d))))
  {
    FourPartSplit(a, b, c, d);
    FourParts("[length:" + [a], "game:" + [b], "ws:" + [c], "bs:" + [d] + "]", md, g);
    LengthPart(a, md, g);
    var md1 := md.(matchLength := Text.DigitValue(a));
    GamePart(b, md1, g);
    var g2 := g.(gameNumber := Text.DigitValue(b));
    WhiteScorePart(c, md1, g2);
    var g3 := g2.(score := (Text.DigitValue(c), g2.score.1));
    BlackScorePart(d, md1, g3);
  }

  /** The text of a one-digit match length, game 1 and score 0-0. */
  lemma GameOneText(a: char)
    ensures FourKeyText(a, '1', '0', '0') == "[length:" + [a] + "][game:1][ws:0][bs:0]"
  {
    GameOneTail();
    Associative("[length:" + [a], "][", "game:1][ws:0][bs:0]");
    assert "][" + "game:1][ws:0][bs:0]" == "][game:1][ws:0][bs:0]";
  }

  lemma GameOneTail()
    ensures "game:" + ['1'] + "][" + ("ws:" + ['0'] + "][" + ("bs:" + ['0'] + "]")) == "game:1][ws:0][bs:0]"
  {
    assert "bs:" + ['0'] + "]" == "bs:0]";
    assert "ws:" + ['0'] + "][" + "bs:0]" == "ws:0][bs:0]";
    assert "game:" + ['1'] + "][" + "ws:0][bs:0]" == "game:1][ws:0][bs:0]";
  }

  /** The 7-point case of TestParseMatchInfo. */
  lemma SevenPointText()
    ensures FourKeyText('7', '1', '0', '0') == "[length:7][game:1][ws:0][bs:0]"
  {
    GameOneText('7');
    assert "[length:" + ['7'] == "[length:7";
  }

  /** The money-game case of TestParseMatchInfo. */
  lemma MoneyGameText()
    ensures FourKeyText('0', '1', '0', '0') == "[length:0][game:1][ws:0][bs:0]"
  {
    GameOneText('0');
    assert "[length:" + ['0'] == "[length:0";
  }

  /** The cases of TestParseMatchInfo: a 7-point match and a money game, both game 1. */
  lemma MatchInfoTestCases(md: MatchMetadata, g: Game)
    ensures MatchInfo("[length:7][game:1][ws:0][bs:0]", md, g).0.matchLength == 7
    ensures MatchInfo("[length:7][game:1][ws:0][bs:0]", md, g).1.gameNumber == 1
    ensures MatchInfo("[length:0][game:1][ws:0][bs:0]", md, g).0.matchLength == 0
    ensures MatchInfo("[length:0][game:1][ws:0][bs:0]", md, g).1.gameNumber == 1
  {
    SevenPointText();
    FourKeyMatchInfo('7', '1', '0', '0', md, g);
    MoneyGameText();
    FourKeyMatchInfo('0', '1', '0', '0', md, g);
  }

  /**
   * The reader keeps `MI[length:7][game:1][ws:0][bs:0]` as four values, and
   * `getProperty` passes on only the first, so such a root sets the match
   * length but never the game number or the score.
   */
  lemma MatchInfoFirstValueOnly(root: Node, md: MatchMetadata, g: Game)
    requires "MI" in root.properties && root.properties["MI"] == ["length:7", "game:1", "ws:0", "bs:0"]
    ensures ExtractOf(root, md, g).0.matchLength == 7
    ensures ExtractOf(root, md, g).1.gameNumber == g.gameNumber
    ensures ExtractOf(root, md, g).1.score == g.score
  {
    var md1 := TextFields(root, md);
    MatchLengthValue(md1, g);
    assert GetProperty(root, "MI") == "length:7";
    var (md2, g2) := MatchInfo("length:7", md1, g);
    var ru := GetProperty(root, "RU");
    var g3 := if ru != "" then Rules(ru, g2) else g2;
    RulesTouchOnly(ru, g2);
    var g4 := if GetProperty(root, "CV") != "" then g3.(autoDoubles := GetPropertyInt(root, "CV")) else g3;
    var re := GetProperty(root, "RE");
    ResultTouchesOnly(re, g4);
  }

  // ---------------------------------------------------------------------------
  // RU

  /** The rule names after trimming, as `parseRules` compares them. */
  function Trimmed(rules: seq<string>): (ts: seq<string>)
    ensures |ts| == |rules|
  {
    seq(|rules|, i requires 0 <= i < |rules| => Text.TrimSpace(rules[i]))
  }

  /** The last variation name among `ts`, or `v` when there is none. */
  function LastVariation(ts: seq<string>, v: string): (r: string)
    ensures r == v || r in ts
    decreases |ts|
  {
    if ts == [] then v
    else if ts[|ts| - 1] in VariationNames then ts[|ts| - 1]
    else LastVariation(ts[..|ts| - 1], v)
  }

  /**
   * What the rule names `ts` make of `g`, independently of their order: each
   * flag is set when its name occurs, NoCube clears the cube when it occurs,
   * and the last variation name is the variation.
   */
  function RuleSummary(ts: seq<string>, g: Game): Game {
    g.(crawford := g.crawford || "Crawford" in ts,
       crawfordGame := g.crawfordGame || "CrawfordGame" in ts,
       jacoby := g.jacoby || "Jacoby" in ts,
       cubeEnabled := g.cubeEnabled && "NoCube" !in ts,
       variation := LastVariation(ts, g.variation))
  }

  lemma RuleSummarySnoc(ts: seq<string>, t: string, g: Game)
    ensures RuleSummary(ts + [t], g) == RuleToken(t, RuleSummary(ts, g))
  {
    assert (ts + [t])[..|ts|] == ts;
    InSnoc(ts, t, "Crawford");
    InSnoc(ts, t, "CrawfordGame");
    InSnoc(ts, t, "Jacoby");
    InSnoc(ts, t, "NoCube");
  }

  lemma InSnoc(ts: seq<string>, t: string, x: string)
    ensures x in ts + [t] <==> x in ts || t == x
  {
  }

  lemma TrimmedSnoc(rules: seq<string>, x: string)
    ensures Trimmed(rules + [x]) == Trimmed(rules) + [Text.TrimSpace(x)]
  {
  }

  lemma RuleTokensSnoc(rules: seq<string>, x: string, g: Game)
    ensures RuleTokens(rules + [x], g) == RuleToken(Text.TrimSpace(x), RuleTokens(rules, g))
    decreases |rules|
  {
    if rules != [] {
      assert (rules + [x])[1..] == rules[1..] + [x];
      RuleTokensSnoc(rules[1..], x, RuleToken(Text.TrimSpace(rules[0]), g));
    } else {
      assert [x][1..] == [];
    }
  }

  /** The names in order come to the same as their summary: no name's effect is undone by a later one, except the variation. */
  lemma {:induction false} RuleTokensMeaning(rules: seq<string>, g: Game)
    ensures RuleTokens(rules, g) == RuleSummary(Trimmed(rules), g)
    decreases |rules|
  {
    if rules != [] {
      var init := rules[..|rules| - 1];
      var x := rules[|rules| - 1];
      var t := Text.TrimSpace(x);
      assert RuleTokens(rules, g) == RuleToken(t, RuleTokens(init, g)) by {
        assert rules == init + [x];
        RuleTokensSnoc(init, x, g);
      }
      assert RuleTokens(init, g) == RuleSummary(Trimmed(init), g) by {
        RuleTokensMeaning(init, g);
      }
      assert RuleSummary(Trimmed(rules), g) == RuleToken(t, RuleSummary(Trimmed(init), g)) by {
        assert rules == init + [x];
        TrimmedSnoc(init, x);
        RuleSummarySnoc(Trimmed(init), t, g);
      }
    } else {
      assert Trimmed(rules) == [];
    }
  }

  /** RU touches only the five rule fields. */
  lemma RulesTouchOnly(ru: string, g: Game)
    ensures var r := Rules(ru, g);
      r == g.(crawford := r.crawford, crawfordGame := r.crawfordGame, jacoby := r.jacoby,
              cubeEnabled := r.cubeEnabled, variation := r.variation)
  {
    RuleTokensMeaning(Text.Split(ru, ":"), g);
  }

  /** Without a variation name, a game with no variation yet becomes "Standard"; otherwise the last name wins. */
  lemma RulesVariation(ru: string, g: Game)
    ensures var ts := Trimmed(Text.Split(ru, ":"));
      Rules(ru, g).variation == (if LastVariation(ts, g.variation) == "" then "Standard" else LastVariation(ts, g.variation))
  {
    RuleTokensMeaning(Text.Split(ru, ":"), g);
  }

  /** Any RU value turns on Crawford exactly when one of its names is "Crawford" after trimming. */
  lemma RulesCrawford(ru: string, g: Game)
    requires !g.crawford
    ensures Rules(ru, g).crawford <==> "Crawford" in Trimmed(Text.Split(ru, ":"))
  {
    RuleTokensMeaning(Text.Split(ru, ":"), g);
  }

  // ---------------------------------------------------------------------------
  // RE

  /** RE touches only the winner, the points and the resignation flag; resigned is only ever set. */
  lemma ResultTouchesOnly(re: string, g: Game)
    ensures var r := ResultOf(re, g);
      r == g.(winner := r.winner, points := r.points, resigned := r.resigned)
      && (r.resigned <==> g.resigned || (|re| >= 3 && Text.HasSuffix(re, "R")))
      && (|re| < 3 ==> r == g)
      && (|re| >= 3 && re[0] == 'W' ==> r.winner == 0)
      && (|re| >= 3 && re[0] == 'B' ==> r.winner == 1)
      && (re == [] || (re[0] != 'W' && re[0] != 'B') ==> r.winner == g.winner)
  {
  }

  /** `<side>+<digit>`, optionally followed by 'R': the digit is the points, the 'R' a resignation. */
  lemma ResultOneDigit(re: string, current: int)
    requires 3 <= |re| <= 4 && re[1] == '+' && Text.IsDigit(re[2]) && (|re| == 4 ==> re[3] == 'R')
    ensures ResultPoints(re, current) == Text.DigitValue(re[2])
    ensures Text.HasSuffix(re, "R") <==> |re| == 4
  {
    var d := re[2];
    assert Text.TrimLeftBy(re[1..], IsPlus) == re[2..] by {
      assert re[1..][1..] == re[2..];
    }
    assert Text.TrimSuffix(re[2..], "R") == [d] by {
      if |re| == 4 {
        assert re[2..] == [d] + "R";
        assert re[2..][..1] == [d];
      } else {
        assert re[2..] == [d];
      }
    }
    Text.AtoiOneDigit(d);
    if |re| == 3 {
      assert re[2..] == [d];
    } else {
      assert re[3..] == "R";
    }
  }

  /** "W+2": side 0 won two points. */
  lemma ResultWonPoints(g: Game)
    ensures ResultOf("W+2", g) == g.(winner := 0, points := 2)
  {
    var w := "W+2";
    assert w[0] == 'W' && w[1] == '+' && w[2] == '2';
    ResultOneDigit(w, g.points);
  }

  /** "B+1R": side 1 won one point by resignation. */
  lemma ResultResigned(g: Game)
    ensures ResultOf("B+1R", g) == g.(winner := 1, points := 1, resigned := true)
  {
    var b := "B+1R";
    assert b[0] == 'B' && b[1] == '+' && b[2] == '1' && b[3] == 'R';
    ResultOneDigit(b, g.points);
  }

  // ---------------------------------------------------------------------------
  // The root

  /** The game a root starts does not depend on the metadata the earlier roots left. */
  lemma ExtractGameIndependent(node: Node, md1: MatchMetadata, md2: MatchMetadata, g: Game)
    ensures ExtractOf(node, md1, g).1 == ExtractOf(node, md2, g).1
  {
    var mi := GetProperty(node, "MI");
    if mi != "" {
      MatchInfoGameIndependent(Text.Split(mi, "]["), TextFields(node, md1), TextFields(node, md2), g);
    }
  }

  /** The root's properties never add moves: the game's records all come from the path. */
  lemma ExtractKeepsMoves(node: Node, md: MatchMetadata, g: Game)
    ensures ExtractOf(node, md, g).1.moves == g.moves
  {
    var md1 := TextFields(node, md);
    var mi := GetProperty(node, "MI");
    var p2 := if mi != "" then MatchInfo(mi, md1, g) else (md1, g);
    assert p2.1.moves == g.moves by {
      if mi != "" {
        MatchInfoTouchesOnly(Text.Split(mi, "]["), md1, g);
      }
    }
    var ru := GetProperty(node, "RU");
    var g3 := if ru != "" then Rules(ru, p2.1) else p2.1;
    assert g3.moves == g.moves by {
      RulesTouchOnly(ru, p2.1);
    }
    var g4 := if GetProperty(node, "CV") != "" then g3.(autoDoubles := GetPropertyInt(node, "CV")) else g3;
    var re := GetProperty(node, "RE");
    var g5 := if re != "" then ResultOf(re, g4) else g4;
    assert g5.moves == g.moves by {
      ResultTouchesOnly(re, g4);
    }
    assert ExtractOf(node, md, g) == (p2.0, g5);
  }

  /**
   * Without RE the winner stays 0, which the record type documents as side
   * 0 having won (-1 would mean unfinished); without RU the variation stays
   * empty rather than "Standard"; the cube starts enabled.
   */
  lemma RootDefaults(root: Node, md: MatchMetadata)
    requires GetProperty(root, "RE") == "" && GetProperty(root, "RU") == ""
    ensures var g := GameOf(root, md).1;
      g.winner == 0 && g.points == 0 && !g.resigned && g.variation == "" && g.cubeEnabled
  {
    var md1 := TextFields(root, md);
    var mi := GetProperty(root, "MI");
    if mi != "" {
      MatchInfoTouchesOnly(Text.Split(mi, "]["), md1, NewGame);
    }
  }

  /** A root CV both sets the automatic doubles and, on the path, adds a SetCube record of the same value. */
  lemma RootCvBothSets(root: Node, md: MatchMetadata)
    requires GetProperty(root, "CV") != "" && GetProperty(root, "RE") == ""
    requires GetProperty(root, "B") == "" && GetProperty(root, "W") == ""
    requires !HasProperty(root, "AE") && !HasProperty(root, "AW") && !HasProperty(root, "AB")
    ensures var g := GameOf(root, md).1;
      g.autoDoubles == GetPropertyInt(root, "CV")
      && g.moves != [] && g.moves[0].kind == SetCube && g.moves[0].cubeValue == GetPropertyInt(root, "CV")
  {
    var md1 := TextFields(root, md);
    var mi := GetProperty(root, "MI");
    if mi != "" {
      MatchInfoTouchesOnly(Text.Split(mi, "]["), md1, NewGame);
    }
    var (md2, g2) := if mi != "" then MatchInfo(mi, md1, NewGame) else (md1, NewGame);
    var ru := GetProperty(root, "RU");
    RulesTouchOnly(ru, g2);
    ExtractKeepsMoves(root, md, NewGame);
    var path := Path(root);
    assert PathRecords(path) == NodeRecords(root) + PathRecords(path[1..]);
    assert NodeRecords(root) == CubeRecords(root, GetProperty(root, "C"));
    assert "CV" in root.properties;
  }

  // ---------------------------------------------------------------------------
  // Records of a node

  /** The analysis stages of `processMove` only fill the four analysis fields. */
  lemma {:induction false} StagesKeepPlayed(node: Node, player: int, moveStr: string, comment: string)
    ensures var r := MoveRecordOf(node, player, moveStr, comment);
      r == PlayedRecord(player, moveStr, comment).(analysis := r.analysis, cubeAnalysis := r.cubeAnalysis,
                                                  luck := r.luck, skill := r.skill)
  {
    var m0 := PlayedRecord(player, moveStr, comment);
    var m1 := if HasProperty(node, "A") then MoveAnalysisOf(node, m0) else m0;
    assert m1 == m0.(analysis := m1.analysis);
    var m2 := if HasProperty(node, "DA") then CubeAnalysisOf(node, m1) else m1;
    assert m2 == m1.(cubeAnalysis := m2.cubeAnalysis);
    var m3 := if HasProperty(node, "LU") then LuckOf(node, m2) else m2;
    assert m3 == m2.(luck := m3.luck);
    var m4 := if HasProperty(node, "SK") then SkillOf(node, m3) else m3;
    assert m4 == m3.(skill := m4.skill);
    RecordStages(node, m0, m1, m2, m3, m4);
  }

  /** The kind of a played record follows the move text; a normal move takes its dice from the first two characters. */
  lemma PlayedKinds(player: int, moveStr: string, comment: string)
    ensures var r := PlayedRecord(player, moveStr, comment);
      (r.kind == Double <==> moveStr == "double")
      && (r.kind == Take <==> moveStr == "take")
      && (r.kind == Drop <==> moveStr == "drop" || moveStr == "pass")
      && (r.kind == Normal <==> moveStr !in {"double", "take", "drop", "pass"})
      && r.player == player && r.comment == comment
      && r.analysis.None? && r.cubeAnalysis.None? && r.luck.None? && r.skill.None?
      && (r.kind == Normal && |moveStr| >= 2 ==> r.dice == (DieValue(moveStr[0]), DieValue(moveStr[1])))
      && (r.kind != Normal || |moveStr| < 2 ==> r.dice == (0, 0))
      && (r.kind == Normal && |moveStr| > 2 ==>
            r.move == EncodedMove(moveStr[2..], ZeroMove) && r.moveString == MoveText(r.move, player))
      && (r.kind != Normal || |moveStr| <= 2 ==> r.move == ZeroMove && r.moveString == "")
  {
  }

  /** B wins over W: a node carrying both is side 1's move, and only that one record is made. */
  lemma MoveNodeOneRecord(node: Node)
    requires GetProperty(node, "B") != "" || GetProperty(node, "W") != ""
    ensures var rs := NodeRecords(node);
      |rs| == 1 && rs[0].player == (if GetProperty(node, "B") != "" then 1 else 0)
      && rs[0].comment == GetProperty(node, "C")
      && rs[0].kind in {Normal, Double, Take, Drop}
  {
    var player := if GetProperty(node, "B") != "" then 1 else 0;
    var mv := if GetProperty(node, "B") != "" then GetProperty(node, "B") else GetProperty(node, "W");
    var comment := GetProperty(node, "C");
    assert NodeRecords(node) == [MoveRecordOf(node, player, mv, comment)];
    StagesKeepPlayed(node, player, mv, comment);
    PlayedKinds(player, mv, comment);
  }

  /**
   * The record of a move whose text is two dice digits then the letters of a
   * side-0 move over board points gets those dice and that move back.
   */
  lemma PlayedRoundTrip(player: int, d1: char, d2: char, move: Move8, comment: string)
    requires move[0] != -1 && BoardPairs(move, PairCount(move))
    requires Text.IsDigit(d1) && Text.IsDigit(d2)
    ensures var r := PlayedRecord(player, [d1, d2] + Compact(MoveText(move, 0)), comment);
      var k := PairCount(move);
      r.kind == Normal && r.dice == (Text.DigitValue(d1), Text.DigitValue(d2))
      && (forall j :: 0 <= j < 2 * k ==> r.move[j] == move[j]) && (k < 4 ==> r.move[2 * k] == -1)
  {
    var text := Compact(MoveText(move, 0));
    var s := [d1, d2] + text;
    var k := PairCount(move);
    RenderThenDecode(move, ZeroMove);
    CompactJoined(move, k);
    assert |text| == 2 * k && k >= 1;
    assert s[0] == d1 && s[1] == d2 && s[2..] == text;
    assert s !in {"double", "take", "drop", "pass"} by {
      assert !Text.IsDigit('d') && !Text.IsDigit('t') && !Text.IsDigit('p');
    }
    PlayedKinds(player, s, comment);
  }

  /** The one record of a set-up node: the board from AW and AB, side 0 on roll unless PL names another. */
  lemma SetupNodeOneRecord(node: Node)
    requires GetProperty(node, "B") == "" && GetProperty(node, "W") == ""
    requires HasProperty(node, "AE") || HasProperty(node, "AW") || HasProperty(node, "AB")
    ensures var rs := NodeRecords(node);
      |rs| == 1 && rs[0].kind == SetBoard && rs[0].position.Some?
      && rs[0].position.value.board == [Tally(AllValues(node, "AW")), Tally(AllValues(node, "AB"))]
      && (rs[0].position.value.onRoll == 0 <==> GetProperty(node, "PL") in {"", "W", "w"})
  {
  }

  /** Records other than moves carry no analysis; in particular DI's record never gets LU's luck, which lands on a copy after the append. */
  lemma SetupRecordsCarryNoAnalysis(node: Node)
    ensures forall r :: r in NodeRecords(node) && r.kind in {SetBoard, SetCube, SetCubePos, SetDice} ==>
      r.analysis.None? && r.cubeAnalysis.None? && r.luck.None? && r.skill.None?
  {
    if GetProperty(node, "B") != "" || GetProperty(node, "W") != "" {
      MoveNodeOneRecord(node);
    } else if HasProperty(node, "AE") || HasProperty(node, "AW") || HasProperty(node, "AB") {
      SetupNodeOneRecord(node);
    } else {
      OtherNodeRecords(node);
    }
  }

  /** The order `processNode` adds cube records in. */
  function CubeRank(k: MoveType): int {
    match k
    case SetCube => 0
    case SetCubePos => 1
    case SetDice => 2
    case _ => 3
  }

  /** The cube records come in the order CV, CP, DI, at most one of each, CV's first exactly when CV is present. */
  lemma CubeRecordOrder(node: Node, comment: string)
    ensures var rs := CubeRecords(node, comment);
      (forall i, j :: 0 <= i < j < |rs| ==> CubeRank(rs[i].kind) < CubeRank(rs[j].kind))
      && (HasProperty(node, "CV") <==> |rs| > 0 && rs[0].kind == SetCube)
  {
  }

  // ---------------------------------------------------------------------------
  // Set-up boards

  lemma {:induction false} OccurrencesAppend(a: seq<string>, b: seq<string>, p: int)
    ensures Occurrences(a + b, p) == Occurrences(a, p) + Occurrences(b, p)
    decreases |b|
  {
    if b == [] {
      assert a + b == a;
    } else {
      var init := b[..|b| - 1];
      assert (a + b)[..|a + b| - 1] == a + init;
      assert (a + b)[|a + b| - 1] == b[|b| - 1];
      OccurrencesAppend(a, init, p);
    }
  }

  /** Each counted value adds one checker to its point; the order of the values does not matter. */
  lemma TallyAddsOne(vs: seq<string>, v: string)
    ensures forall p :: 0 <= p < 25 ==>
      Tally(vs + [v])[p] == Tally(vs)[p] + (if PointOf(v) == p then 1 else 0)
  {
    forall p | 0 <= p < 25
      ensures Occurrences(vs + [v], p) == Occurrences(vs, p) + (if PointOf(v) == p then 1 else 0)
    {
      assert (vs + [v])[..|vs|] == vs;
    }
  }

  /** A value that is not one letter for a point 0..24, such as "z" (off) or "ab", leaves the board alone. */
  lemma TallyIgnores(vs: seq<string>, v: string)
    requires !(0 <= PointOf(v) < 25)
    ensures Tally(vs + [v]) == Tally(vs)
  {
    TallyAddsOne(vs, v);
  }

  lemma TallyOrderFree(a: seq<string>, b: seq<string>)
    ensures Tally(a + b) == Tally(b + a)
  {
    forall p | 0 <= p < 25
      ensures Occurrences(a + b, p) == Occurrences(b + a, p)
    {
      OccurrencesAppend(a, b, p);
      OccurrencesAppend(b, a, p);
    }
  }

  // ---------------------------------------------------------------------------
  // Games and the match

  /** The game a root yields on its own. */
  function GameAlone(root: Node): Game {
    GameOf(root, EmptyMetadata).1
  }

  /** The games of the roots, each taken on its own. */
  function GamesAlone(roots: seq<Node>): (gs: seq<Game>)
    ensures |gs| == |roots|
  {
    if roots == [] then [] else [GameAlone(roots[0])] + GamesAlone(roots[1..])
  }

  /** The game of a root does not depend on the metadata the earlier roots left. */
  lemma GameOfIndependent(root: Node, md: MatchMetadata)
    ensures GameOf(root, md).1 == GameAlone(root)
  {
    ExtractGameIndependent(root, md, EmptyMetadata, NewGame);
  }

  lemma GamesFromStep(roots: seq<Node>, md: MatchMetadata, games: seq<Game>)
    requires roots != []
    ensures GamesFrom(roots, md, games)
      == GamesFrom(roots[1..], GameOf(roots[0], md).0, games + [GameOf(roots[0], md).1])
  {
  }

  /** One game per root, in root order, each determined by its own root alone. */
  lemma {:induction false} GamesAreTheRoots(roots: seq<Node>, md: MatchMetadata, games: seq<Game>)
    ensures GamesFrom(roots, md, games).1 == games + GamesAlone(roots)
    decreases |roots|
  {
    if roots == [] {
      assert GamesAlone(roots) == [];
      AppendNothing(games);
    } else {
      var p := GameOf(roots[0], md);
      GamesFromStep(roots, md, games);
      GamesAreTheRoots(roots[1..], p.0, games + [p.1]);
      GameOfIndependent(roots[0], md);
      Associative(games, [p.1], GamesAlone(roots[1..]));
    }
  }

  /** A match has one game per root, each the root's game on its own; no roots is the "no games found" error. */
  lemma MatchShape(roots: seq<Node>)
    ensures MatchOf(roots).Err? <==> roots == []
    ensures MatchOf(roots).Err? ==> MatchOf(roots).error == "no games found"
    ensures MatchOf(roots).Ok? ==> MatchOf(roots).value.games == GamesAlone(roots)
  {
    if roots != [] {
      GamesAreTheRoots(roots, EmptyMetadata, []);
      assert [] + GamesAlone(roots) == GamesAlone(roots);
    }
  }

  /** The metadata field that a root text property feeds. */
  function MetaField(md: MatchMetadata, name: string): string
    requires name in TextNames
  {
    if name == "AP" then md.application
    else if name == "PW" then md.player1
    else if name == "PB" then md.player2
    else if name == "WR" then md.rating1
    else if name == "BR" then md.rating2
    else if name == "EV" then md.event
    else if name == "RO" then md.round
    else if name == "PC" then md.place
    else if name == "DT" then md.date
    else if name == "AN" then md.annotator
    else md.comment
  }

  const TextNames: set<string> := {"AP", "PW", "PB", "WR", "BR", "EV", "RO", "PC", "DT", "AN", "GC"}

  /** The last non-empty value of `name` among the roots, or `v` if none has one. */
  function LastValue(roots: seq<Node>, name: string, v: string): string
    decreases |roots|
  {
    if roots == [] then v
    else if GetProperty(roots[|roots| - 1], name) != "" then GetProperty(roots[|roots| - 1], name)
    else LastValue(roots[..|roots| - 1], name, v)
  }

  /** The metadata side of `extractMetadata`: the text fields, then MI. */
  lemma ExtractMetadataSide(node: Node, md: MatchMetadata, g: Game)
    ensures var mi := GetProperty(node, "MI");
      ExtractOf(node, md, g).0 == if mi != "" then MatchInfo(mi, TextFields(node, md), g).0 else TextFields(node, md)
  {
  }

  lemma TextFieldValue(root: Node, md: MatchMetadata, name: string)
    requires name in TextNames
    ensures MetaField(TextFields(root, md), name) == Keep(GetProperty(root, name), MetaField(md, name))
  {
    var t := TextFields(root, md);
    if name == "AP" {
      assert MetaField(t, name) == t.application;
    } else if name == "PW" {
      assert MetaField(t, name) == t.player1;
    } else if name == "PB" {
      assert MetaField(t, name) == t.player2;
    } else if name == "WR" {
      assert MetaField(t, name) == t.rating1;
    } else if name == "BR" {
      assert MetaField(t, name) == t.rating2;
    } else if name == "EV" {
      assert MetaField(t, name) == t.event;
    } else if name == "RO" {
      assert MetaField(t, name) == t.round;
    } else if name == "PC" {
      assert MetaField(t, name) == t.place;
    } else if name == "DT" {
      assert MetaField(t, name) == t.date;
    } else if name == "AN" {
      assert MetaField(t, name) == t.annotator;
    } else {
      assert name == "GC";
      assert MetaField(t, name) == t.comment;
    }
  }

  lemma MetaFieldIgnoresLength(md: MatchMetadata, length: int, name: string)
    requires name in TextNames
    ensures MetaField(md.(matchLength := length), name) == MetaField(md, name)
  {
  }

  lemma GameOfText(root: Node, md: MatchMetadata, name: string)
    requires name in TextNames
    ensures MetaField(GameOf(root, md).0, name) == Keep(GetProperty(root, name), MetaField(md, name))
  {
    var md1 := TextFields(root, md);
    var mi := GetProperty(root, "MI");
    ExtractMetadataSide(root, md, NewGame);
    assert GameOf(root, md).0 == ExtractOf(root, md, NewGame).0;
    TextFieldValue(root, md, name);
    if mi != "" {
      var md2 := MatchInfo(mi, md1, NewGame).0;
      MatchInfoTouchesOnly(Text.Split(mi, "]["), md1, NewGame);
      assert md2 == md1.(matchLength := md2.matchLength);
      MetaFieldIgnoresLength(md1, md2.matchLength, name);
    }
  }

  lemma GamesFromSnoc(roots: seq<Node>, root: Node, md: MatchMetadata, games: seq<Game>)
    ensures GamesFrom(roots + [root], md, games).0 == GameOf(root, GamesFrom(roots, md, games).0).0
    decreases |roots|
  {
    if roots == [] {
      assert [root][1..] == [];
    } else {
      assert (roots + [root])[1..] == roots[1..] + [root];
      var (md', g) := GameOf(roots[0], md);
      GamesFromSnoc(roots[1..], root, md', games + [g]);
    }
  }

  /** Across a match, each text field holds the last non-empty value any root gave it, or stays empty. */
  lemma {:induction false} MetadataFromLastRoot(roots: seq<Node>, name: string)
    requires name in TextNames
    ensures MetaField(GamesFrom(roots, EmptyMetadata, []).0, name) == LastValue(roots, name, "")
    decreases |roots|
  {
    if roots != [] {
      var init := roots[..|roots| - 1];
      var last := roots[|roots| - 1];
      assert roots == init + [last];
      GamesFromSnoc(init, last, EmptyMetadata, []);
      MetadataFromLastRoot(init, name);
      GameOfText(last, GamesFrom(init, EmptyMetadata, []).0, name);
    }
  }
}
