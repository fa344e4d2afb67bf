/**
 * Properties of the Jellyfish .mat reader: how points, moves and the two
 * columns of a move row are read, the date rewrite of the metadata comments,
 * the flags each game starts with and keeps, and how a game and the whole
 * file end.
 */
module MatProperties {
  import opened Wrappers
  import Text
  import opened Types
  import opened MatText
  import opened MatParser

  // ---------------------------------------------------------------------------
  // Decimal digit strings

  /** The value of a digit string, read from the right: an independent definition of what Atoi computes. */
  function Value(s: string): nat
    requires Text.AllDigits(s)
    decreases |s|
  {
    if s == [] then 0 else Value(s[..|s| - 1]) * 10 + Text.DigitValue(s[|s| - 1])
  }

  lemma {:induction false} ValueBound(s: string)
    requires Text.AllDigits(s)
    ensures Value(s) < Text.Pow10(|s|)
    decreases |s|
  {
    if s != [] {
      ValueBound(s[..|s| - 1]);
    }
  }

  /** The digit loop of Atoi, one character added on the right. */
  lemma {:induction false} ScanSnoc(s: string, c: char, n: nat)
    requires Text.AllDigits(s) && Text.IsDigit(c)
    ensures Text.ScanDigits(s + [c], n) ==
      match Text.ScanDigits(s, n)
      case Digits(m) => if m * 10 + Text.DigitValue(c) > Text.MaxUint64 then Text.Overflow else Text.Digits(m * 10 + Text.DigitValue(c))
      case other => other
    decreases |s|
  {
    if s != [] {
      assert (s + [c])[1..] == s[1..] + [c];
      if n * 10 + Text.DigitValue(s[0]) <= Text.MaxUint64 {
        ScanSnoc(s[1..], c, n * 10 + Text.DigitValue(s[0]));
      }
    } else {
      assert [c][1..] == [];
    }
  }

  lemma {:induction false} ScanValue(s: string)
    requires Text.AllDigits(s) && Value(s) <= Text.MaxUint64
    ensures Text.ScanDigits(s, 0) == Text.Digits(Value(s))
    decreases |s|
  {
    if s != [] {
      var init, c := s[..|s| - 1], s[|s| - 1];
      assert s == init + [c];
      ScanValue(init);
      ScanSnoc(init, c, 0);
    }
  }

  lemma TwoDigits(a: char, b: char)
    requires Text.IsDigit(a) && Text.IsDigit(b)
    ensures Value([a]) == Text.DigitValue(a)
    ensures Value([a, b]) == 10 * Text.DigitValue(a) + Text.DigitValue(b)
  {
    assert [a, b][..1] == [a];
  }

  /** A digit string within the 64-bit range reads as its value. */
  lemma AtoiDigits(s: string)
    requires s != [] && Text.AllDigits(s) && Value(s) <= Text.MaxInt64
    ensures Text.Atoi(s) == Text.IntParse(Value(s), true)
  {
    ScanValue(s);
  }

  /** Zero-padding a digit string's value to its own length gives the string back. */
  lemma {:induction false} PadDigits(s: string)
    requires s != [] && Text.AllDigits(s)
    ensures Text.ZeroPad(Value(s), |s|) == s
    decreases |s|
  {
    var init, c := s[..|s| - 1], s[|s| - 1];
    var v, d := Value(s), Text.DigitValue(c);
    assert v == Value(init) * 10 + d;
    assert ('0' as int + d) as char == c;
    if init == [] {
      assert s == [c];
    } else {
      PadDigits(init);
      if v < 10 {
        assert Value(init) == 0;
      } else {
        assert v / 10 == Value(init) && v % 10 == d;
      }
      assert s == init + [c];
    }
  }

  // ---------------------------------------------------------------------------
  // parseMatPoint

  /** No space at either end: what TrimSpace leaves alone. */
  predicate Trimmed(s: string) {
    s == [] || (Text.NotSpace(s[0]) && Text.NotSpace(s[|s| - 1]))
  }

  lemma TrimmedStays(s: string)
    requires Trimmed(s)
    ensures Text.TrimSpace(s) == s
  {
    assert Text.TrimRightBy(s, Text.IsSpace) == s;
    assert Text.TrimLeftBy(s, Text.IsSpace) == s;
  }

  /** A number 1..24 names the point one below it. */
  lemma PointNumber(s: string)
    requires s != [] && Text.AllDigits(s) && 1 <= Value(s) <= 24
    ensures ParseMatPoint(s) == Value(s) - 1
  {
    TrimmedStays(s);
    AtoiDigits(s);
    assert Text.ToLower(s)[0] == s[0];
  }

  /** Any other number is not a point. */
  lemma PointOutOfRange(s: string)
    requires s != [] && Text.AllDigits(s) && Value(s) <= Text.MaxInt64 && (Value(s) == 0 || Value(s) > 24)
    ensures ParseMatPoint(s) == -2
  {
    TrimmedStays(s);
    AtoiDigits(s);
    assert Text.ToLower(s)[0] == s[0];
  }

  /** One trailing hit marker is ignored. */
  lemma PointStar(s: string)
    requires Trimmed(s) && !Text.HasSuffix(s, "*")
    ensures ParseMatPoint(s + "*") == ParseMatPoint(s)
  {
    TrimmedStays(s);
    TrimmedStays(s + "*");
    assert Text.TrimSuffix(s + "*", "*") == s;
  }

  /** "bar" in any case is point 24. */
  lemma PointBar(s: string)
    requires Trimmed(s) && Text.ToLower(s) == "bar"
    ensures ParseMatPoint(s) == 24
  {
    TrimmedStays(s);
    assert Text.LowerChar(s[2]) == 'r';
  }

  /** "off" in any case is -1. */
  lemma PointOff(s: string)
    requires Trimmed(s) && Text.ToLower(s) == "off"
    ensures ParseMatPoint(s) == -1
  {
    TrimmedStays(s);
    assert Text.LowerChar(s[2]) == 'f';
  }

  /** A word that is neither a number nor bar/off is not a point. */
  lemma PointWord(s: string)
    requires Trimmed(s) && s != [] && !Text.HasSuffix(s, "*")
    requires !Text.IsDigit(s[0]) && s[0] != '+' && s[0] != '-'
    requires Text.ToLower(s) != "bar" && Text.ToLower(s) != "off"
    ensures ParseMatPoint(s) == -2
  {
    TrimmedStays(s);
  }

  /** The case "1" of the point reader's unit test. */
  lemma PointOneExample()
    ensures ParseMatPoint("1") == 0
  {
    TwoDigits('1', '0');
    PointNumber("1");
  }

  /** The case "24" of the point reader's unit test. */
  lemma PointTwentyFourExample()
    ensures ParseMatPoint("24") == 23
  {
    TwoDigits('2', '4');
    PointNumber("24");
  }

  /** The bar cases of the point reader's unit test. */
  lemma PointBarExamples()
    ensures ParseMatPoint("bar") == 24 && ParseMatPoint("Bar") == 24
  {
    PointBar("bar");
    PointBar("Bar");
  }

  /** The off cases of the point reader's unit test. */
  lemma PointOffExamples()
    ensures ParseMatPoint("off") == -1 && ParseMatPoint("Off") == -1
  {
    PointOff("off");
    PointOff("Off");
  }

  /** `13*`: the hit marker is dropped, leaving point 13, index 12. */
  lemma PointHitExample()
    ensures ParseMatPoint("13*") == 12
  {
    PointThirteen();
    HitThirteen();
  }

  lemma PointThirteen()
    ensures ParseMatPoint("13") == 12
  {
    TwoDigits('1', '3');
    PointNumber("13");
  }

  lemma HitThirteen()
    ensures ParseMatPoint("13*") == ParseMatPoint("13")
  {
    PointStar("13");
    assert "13" + "*" == "13*";
  }

  /** The rejected case of the point reader's unit test. */
  lemma PointWordExample()
    ensures ParseMatPoint("invalid") == -2
  {
    PointWord("invalid");
  }

  // ---------------------------------------------------------------------------
  // parseMatMove

  /**
   * A move holds points only: each slot is -1..24, each from-slot that is
   * used is a point 0..24, and the used pairs come first, so once a
   * from-slot is -1 every later slot is too.
   */
  predicate PackedPoints(m: Move8) {
    (forall j :: 0 <= j < 8 ==> -1 <= m[j] <= 24)
    && (forall k, j :: 0 <= k < 4 && 2 * k <= j < 8 && m[2 * k] == -1 ==> m[j] == -1)
  }

  lemma LayoutPacked(pairs: seq<(int, int)>)
    requires forall k :: 0 <= k < |pairs| ==> 0 <= pairs[k].0 <= 24 && -1 <= pairs[k].1 <= 24
    ensures PackedPoints(Layout(pairs))
  {
  }

  /** What `parseMatMove` returns is always a packed move of points. */
  lemma MatMoveShape(moveStr: string)
    ensures PackedPoints(MatMove(moveStr))
  {
    if !CannotMove(moveStr) {
      var pairs := Pairs(Text.Fields(moveStr));
      PairsInRange(Text.Fields(moveStr));
      LayoutPacked(pairs);
    }
  }

  /** No space anywhere. */
  predicate Solid(w: string) {
    forall i :: 0 <= i < |w| ==> Text.NotSpace(w[i])
  }

  lemma {:induction false} WordPrefix(w: string, rest: string)
    requires Solid(w) && (rest == [] || Text.IsSpace(rest[0]))
    ensures Text.Word(w + rest) == w
    decreases |w|
  {
    if w != [] {
      assert (w + rest)[1..] == w[1..] + rest;
      WordPrefix(w[1..], rest);
    } else {
      assert w + rest == rest;
    }
  }

  lemma FieldsOne(w: string)
    requires w != [] && Solid(w)
    ensures Text.Fields(w) == [w]
  {
    assert Text.TrimLeftBy(w, Text.IsSpace) == w;
    WordPrefix(w, []);
    assert w + [] == w;
    assert w[|w|..] == [];
  }

  /** Two words with a space between them are two fields. */
  lemma FieldsTwo(w1: string, w2: string)
    requires w1 != [] && Solid(w1) && w2 != [] && Solid(w2)
    ensures Text.Fields(w1 + " " + w2) == [w1, w2]
  {
    var s := w1 + " " + w2;
    assert Text.TrimLeftBy(s, Text.IsSpace) == s;
    assert s == w1 + (" " + w2);
    WordPrefix(w1, " " + w2);
    var rest := s[|w1|..];
    assert rest == " " + w2;
    assert rest[1..] == w2;
    assert Text.TrimLeftBy(rest, Text.IsSpace) == Text.TrimLeftBy(w2, Text.IsSpace);
    FieldsOne(w2);
  }

  /** No '/' anywhere. */
  predicate NoSlash(w: string) {
    forall i :: 0 <= i < |w| ==> w[i] != '/'
  }

  lemma SplitSlash(x: string, y: string)
    requires NoSlash(x) && NoSlash(y)
    ensures Text.Split(x + "/" + y, "/") == [x, y]
  {
    var s := x + "/" + y;
    assert Text.OccursAt(s, "/", |x|) by {
      assert s[|x|..|x| + 1] == "/";
    }
    Text.IndexOfFirst(s, "/", |x|);
    assert s[..|x|] == x;
    assert s[|x| + 1..] == y;
    Text.IndexOfAbsent(y, "/");
  }

  /** A field "x/y" with a usable from- and to-point is that pair. */
  lemma FieldPairOf(x: string, y: string)
    requires NoSlash(x) && NoSlash(y) && ParseMatPoint(x) >= 0 && ParseMatPoint(y) >= -1
    ensures FieldPair(x + "/" + y) == [(ParseMatPoint(x), ParseMatPoint(y))]
  {
    SplitSlash(x, y);
  }

  /** No letter that lowers to 'c', so never part of "can't move". */
  predicate NoC(w: string) {
    forall i :: 0 <= i < |w| ==> Text.LowerChar(w[i]) != 'c'
  }

  lemma NoCConcat(a: string, b: string)
    requires NoC(a) && NoC(b)
    ensures NoC(a + b)
  {
    forall i | 0 <= i < |a + b| ensures Text.LowerChar((a + b)[i]) != 'c' {
      if i >= |a| {
        assert (a + b)[i] == b[i - |a|];
      }
    }
  }

  lemma SolidConcat(a: string, b: string)
    requires Solid(a) && Solid(b)
    ensures Solid(a + b)
  {
    forall i | 0 <= i < |a + b| ensures Text.NotSpace((a + b)[i]) {
      if i >= |a| {
        assert (a + b)[i] == b[i - |a|];
      }
    }
  }

  /** A field: a non-empty word that is never part of "can't move". */
  predicate Plain(w: string) {
    w != [] && Solid(w) && NoC(w)
  }

  /** A point written as a word: a plain word without '/'. */
  predicate PointWordShape(w: string) {
    Plain(w) && NoSlash(w)
  }

  lemma NotCannotMove(s: string)
    requires s != [] && NoC(s)
    ensures !CannotMove(s)
  {
    Text.IndexOfAbsent(Text.ToLower(s), "can't move");
  }

  /** One move "x/y": its pair in the first two slots. */
  lemma OnePairMove(x: string, y: string)
    requires PointWordShape(x) && PointWordShape(y) && ParseMatPoint(x) >= 0 && ParseMatPoint(y) >= -1
    ensures MatMove(x + "/" + y) == [ParseMatPoint(x), ParseMatPoint(y), -1, -1, -1, -1, -1, -1]
  {
    var f := x + "/" + y;
    Joined(x, y);
    NotCannotMove(f);
    FieldsOne(f);
    FieldPairOf(x, y);
    var p := (ParseMatPoint(x), ParseMatPoint(y));
    assert Pairs([f]) == [p] by {
      assert [f][..0] == [];
    }
    assert MatMove(f) == Layout(Pairs([f]));
    LayoutOne(p);
  }

  /** Two moves "x1/y1 x2/y2": their pairs in the first four slots, in order. */
  lemma TwoPairMove(x1: string, y1: string, x2: string, y2: string)
    requires PointWordShape(x1) && PointWordShape(y1) && PointWordShape(x2) && PointWordShape(y2)
    requires ParseMatPoint(x1) >= 0 && ParseMatPoint(y1) >= -1 && ParseMatPoint(x2) >= 0 && ParseMatPoint(y2) >= -1
    ensures MatMove(x1 + "/" + y1 + " " + x2 + "/" + y2)
      == [ParseMatPoint(x1), ParseMatPoint(y1), ParseMatPoint(x2), ParseMatPoint(y2), -1, -1, -1, -1]
  {
    var f1, f2 := x1 + "/" + y1, x2 + "/" + y2;
    var s := f1 + " " + f2;
    TwoPairText(x1, y1, x2, y2);
    TwoPairFields(x1, y1, x2, y2);
    var p1, p2 := (ParseMatPoint(x1), ParseMatPoint(y1)), (ParseMatPoint(x2), ParseMatPoint(y2));
    assert Pairs([f1, f2]) == [p1, p2] by {
      FieldPairOf(x1, y1);
      FieldPairOf(x2, y2);
      PairsTwo(f1, f2);
    }
    assert MatMove(s) == Layout(Pairs([f1, f2]));
    LayoutTwo(p1, p2);
  }

  /** The text of two moves is a move text with exactly those two fields. */
  lemma TwoPairFields(x1: string, y1: string, x2: string, y2: string)
    requires PointWordShape(x1) && PointWordShape(y1) && PointWordShape(x2) && PointWordShape(y2)
    ensures var f1, f2 := x1 + "/" + y1, x2 + "/" + y2;
      !CannotMove(f1 + " " + f2) && Text.Fields(f1 + " " + f2) == [f1, f2]
  {
    var f1, f2 := x1 + "/" + y1, x2 + "/" + y2;
    var s := f1 + " " + f2;
    Joined(x1, y1);
    Joined(x2, y2);
    assert !CannotMove(s) by {
      NoCConcat(f1, " ");
      NoCConcat(f1 + " ", f2);
      NotCannotMove(s);
    }
    FieldsTwo(f1, f2);
  }

  lemma TwoPairText(x1: string, y1: string, x2: string, y2: string)
    ensures x1 + "/" + y1 + " " + x2 + "/" + y2 == (x1 + "/" + y1) + " " + (x2 + "/" + y2)
  {
    var a := x1 + "/" + y1 + " ";
    Associative(a + x2, "/", y2);
    Associative(a, x2, "/");
    Associative(a, x2 + "/", y2);
  }

  lemma LayoutOne(p: (int, int))
    ensures Layout([p]) == [p.0, p.1, -1, -1, -1, -1, -1, -1]
  {
    var m := Layout([p]);
    assert m[0] == p.0 && m[1] == p.1 && m[2] == -1 && m[3] == -1;
    assert m[4] == -1 && m[5] == -1 && m[6] == -1 && m[7] == -1;
  }

  lemma LayoutTwo(p1: (int, int), p2: (int, int))
    ensures Layout([p1, p2]) == [p1.0, p1.1, p2.0, p2.1, -1, -1, -1, -1]
  {
    var m := Layout([p1, p2]);
    assert m[0] == p1.0 && m[1] == p1.1 && m[2] == p2.0 && m[3] == p2.1;
    assert m[4] == -1 && m[5] == -1 && m[6] == -1 && m[7] == -1;
  }

  lemma Joined(x: string, y: string)
    requires PointWordShape(x) && PointWordShape(y)
    ensures Plain(x + "/" + y)
  {
    NoCConcat(x, "/");
    NoCConcat(x + "/", y);
    SolidConcat(x, "/");
    SolidConcat(x + "/", y);
  }

  lemma PairsTwo(f1: string, f2: string)
    ensures Pairs([f1, f2]) == FieldPair(f1) + FieldPair(f2)
  {
    assert [f1][..0] == [];
    assert Pairs([f1]) == [] + FieldPair(f1) == FieldPair(f1);
    assert [f1, f2][..1] == [f1];
    assert Pairs([f1, f2]) == Pairs([f1]) + FieldPair(f2);
  }

  /** The empty move and "can't move" leave every slot at -1. */
  lemma RefusedMove(moveStr: string)
    requires moveStr == "" || Text.Contains(Text.ToLower(moveStr), "can't move")
    ensures MatMove(moveStr) == NoMatMove
  {
  }

  /** The empty move text gives no move. */
  lemma MoveEmptyExample()
    ensures MatMove("") == [-1, -1, -1, -1, -1, -1, -1, -1]
  {
    RefusedMove("");
  }

  // ---------------------------------------------------------------------------
  // splitMoveLine

  /** No run of three blanks anywhere. */
  predicate NoGap(s: string) {
    forall j :: 0 <= j < |s| ==> !GapAt(s, j)
  }

  predicate AllBlank(s: string) {
    forall i :: 0 <= i < |s| ==> Text.IsReSpace(s[i])
  }

  lemma {:induction false} FirstGapIs(s: string, k: nat, g: nat)
    requires k <= g && GapAt(s, g) && forall j :: k <= j < g ==> !GapAt(s, j)
    ensures FirstGap(s, k) == Some(g)
    decreases g - k
  {
    if k < g {
      FirstGapIs(s, k + 1, g);
    }
  }

  lemma {:induction false} BlanksSkip(gap: string, rest: string)
    requires AllBlank(gap) && (rest == [] || !Text.IsReSpace(rest[0]))
    ensures Blanks(gap + rest) == rest
    decreases |gap|
  {
    if gap == [] {
      assert gap + rest == rest;
    } else {
      assert (gap + rest)[1..] == gap[1..] + rest;
      BlanksSkip(gap[1..], rest);
    }
  }

  /**
   * Two columns written with a run of three or more blanks between them are
   * read back as they were, provided the first holds no such run itself and
   * neither has blanks at its ends; the first may be empty.
   */
  lemma SplitJoin(first: string, gap: string, second: string)
    requires Trimmed(first) && NoGap(first) && Trimmed(second)
    requires |gap| >= 3 && AllBlank(gap)
    ensures SplitMoveLine(first + gap + second) == [first, second]
  {
    var line := first + gap + second;
    var k := |first|;
    assert GapAt(line, k) by {
      assert line[k] == gap[0] && line[k + 1] == gap[1] && line[k + 2] == gap[2];
    }
    forall j | 0 <= j < k ensures !GapAt(line, j) {
      if j + 3 <= k {
        assert !GapAt(first, j);
        assert line[j] == first[j] && line[j + 1] == first[j + 1] && line[j + 2] == first[j + 2];
      } else {
        assert line[k - 1] == first[k - 1];
      }
    }
    FirstGapIs(line, 0, k);
    assert line[..k] == first;
    assert line[k..] == gap + second;
    BlanksSkip(gap, second);
    TrimmedStays(first);
    TrimmedStays(second);
  }

  /** A line without a run of three blanks is all first column. */
  lemma SplitAlone(line: string)
    requires NoGap(line)
    ensures SplitMoveLine(line) == [Text.TrimSpace(line), ""]
  {
  }

  // ---------------------------------------------------------------------------
  // parseMetadataComment

  /** An EventDate of four, two and two digits is rewritten digit for digit as YYYY-MM-DD. */
  lemma DateRoundTrip(y: string, m: string, d: string)
    requires DateDigits((y, m, d))
    ensures DateText(y, m, d) == y + "-" + m + "-" + d
  {
    ValueBound(y);
    ValueBound(m);
    ValueBound(d);
    assert Text.Pow10(4) == 10000 && Text.Pow10(2) == 100;
    AtoiDigits(y);
    AtoiDigits(m);
    AtoiDigits(d);
    PadDigits(y);
    PadDigits(m);
    PadDigits(d);
  }

  /** A comment with an EventDate tag sets the date to it, and nothing else. */
  lemma CommentDate(md: MatchMetadata, comment: string)
    requires EventDate(comment).Some?
    ensures var (y, m, d) := EventDate(comment).value;
      MetadataComment(md, comment) == md.(date := y + "-" + m + "-" + d)
  {
    var (y, m, d) := EventDate(comment).value;
    DateRoundTrip(y, m, d);
  }

  /**
   * A comment changes at most one of the date, event, round, place and
   * annotator, and never the players, ratings, match length, comment or
   * application.
   */
  lemma CommentTouchesOne(md: MatchMetadata, comment: string)
    ensures var r := MetadataComment(md, comment);
      r == md || r == md.(date := r.date) || r == md.(event := r.event) || r == md.(round := r.round)
      || r == md.(place := r.place) || r == md.(annotator := r.annotator)
  {
  }

  // ---------------------------------------------------------------------------
  // One game

  /** The flags a new game starts with follow from the match length and the score. */
  lemma NewGameFlags(number: int, score1: int, score2: int, matchLength: int)
    ensures var g := NewMatGame(number, score1, score2, matchLength);
      (g.crawford <==> matchLength > 0) && (g.jacoby <==> matchLength == 0)
      && (g.crawfordGame <==>
            (matchLength > 0
             && ((score1 == matchLength - 1 && score2 < matchLength - 1)
                 || (score2 == matchLength - 1 && score1 < matchLength - 1))))
      && g.winner == -1 && g.moves == [] && g.cubeEnabled && g.variation == "Standard"
      && g.gameNumber == number && g.score == (score1, score2)
  {
  }

  /** What the move section never changes: the game's header fields; the moves only grow. */
  predicate KeepsHeader(g: Game, g': Game) {
    g'.gameNumber == g.gameNumber && g'.score == g.score && g'.variation == g.variation
    && g'.crawford == g.crawford && g'.crawfordGame == g.crawfordGame && g'.jacoby == g.jacoby
    && g'.cubeEnabled == g.cubeEnabled && g'.autoDoubles == g.autoDoubles && g.moves <= g'.moves
  }

  /** The credited player is 0 or 1 and the winner is -1 (none yet), 0 or 1. */
  predicate Settled(p: Play) {
    (p.current == 0 || p.current == 1) && -1 <= p.game.winner <= 1
  }

  lemma DropIsNotDoubleOrTake(part: string)
    requires Drops(part)
    ensures Doubles(part).None? && !Takes(part) && part != ""
  {
    assert part[..5] == "Drops";
    assert part[1] == 'r' && part[0] == 'D';
  }

  lemma AddRecordKeeps(g: Game, mr: MoveRecord)
    ensures KeepsHeader(g, AddRecord(g, mr))
  {
  }

  lemma ColumnKeeps(part: string, player: int, p: Play)
    requires (player == 0 || player == 1) && Settled(p)
    ensures KeepsHeader(p.game, Column(part, player, p).0.game) && Settled(Column(part, player, p).0)
  {
    var q := Column(part, player, p).0;
    if Doubles(part).Some? {
      var mr := NewRecord(Double, player, "").(cubeValue := Text.Atoi(Doubles(part).value).value);
      AddRecordKeeps(p.game, mr);
      assert q == Play(AddRecord(p.game, mr), player);
    } else if Takes(part) {
      AddRecordKeeps(p.game, NewRecord(Take, player, ""));
      assert q == Play(AddRecord(p.game, NewRecord(Take, player, "")), player);
    } else if Drops(part) {
      AddRecordKeeps(p.game, NewRecord(Drop, player, ""));
      assert q == Play(AddRecord(p.game, NewRecord(Drop, player, "")).(winner := 1 - player), 1 - player);
    } else if DiceAndMove(part).Some? {
      ColumnKeepsDice(part, player, p);
    } else {
      assert q == p;
    }
  }

  lemma ColumnKeepsDice(part: string, player: int, p: Play)
    requires (player == 0 || player == 1) && Settled(p)
    requires Doubles(part).None? && !Takes(part) && !Drops(part) && DiceAndMove(part).Some?
    ensures KeepsHeader(p.game, Column(part, player, p).0.game) && Settled(Column(part, player, p).0)
  {
    var (c1, c2, m) := DiceAndMove(part).value;
    var mr := NewRecord(Normal, player, "").(
      dice := (Text.DigitValue(c1), Text.DigitValue(c2)),
      moveString := Text.TrimSpace(m),
      move := if Text.TrimSpace(m) != "" then MatMove(Text.TrimSpace(m)) else ZeroMove);
    AddRecordKeeps(p.game, mr);
    assert Column(part, player, p).0 == Play(AddRecord(p.game, mr), player);
  }

  /** Only a drop ends the row, and it credits the other player. */
  lemma ColumnStops(part: string, player: int, p: Play)
    ensures Column(part, player, p).1 <==> Drops(part)
    ensures Drops(part) ==> Column(part, player, p).0.game.winner == 1 - player
  {
    if Drops(part) {
      DropIsNotDoubleOrTake(part);
    }
  }

  lemma {:induction false} RowKeeps(parts: seq<string>, i: nat, p: Play)
    requires |parts| <= 2 && Settled(p)
    ensures KeepsHeader(p.game, Row(parts, i, p).game) && Settled(Row(parts, i, p))
    decreases |parts| - i
  {
    if i < |parts| {
      if parts[i] == "" {
        RowKeeps(parts, i + 1, p);
      } else {
        ColumnKeeps(parts[i], i, p);
        var (p', stop) := Column(parts[i], i, p);
        if !stop {
          RowKeeps(parts, i + 1, p');
        }
      }
    }
  }

  /** A drop in the first column ends the row there: the second column is not read and the other player wins. */
  lemma DropEndsRow(parts: seq<string>, p: Play)
    requires parts != [] && Drops(parts[0])
    ensures Row(parts, 0, p) == Row(parts[..1], 0, p)
    ensures Row(parts, 0, p).game.winner == 1 && Row(parts, 0, p).current == 1
  {
    DropIsNotDoubleOrTake(parts[0]);
  }

  /**
   * A "Doubles => n" column records a double by the column's player with
   * the new cube value n; that player is the one a Wins line would credit.
   */
  lemma ColumnDouble(part: string, player: int, p: Play)
    requires Doubles(part).Some?
    ensures Column(part, player, p) ==
      (Play(p.game.(moves := p.game.moves + [NewRecord(Double, player, "").(cubeValue := Text.Atoi(Doubles(part).value).value)]),
            player), false)
  {
  }

  lemma TakeIsNotDouble(part: string)
    requires Takes(part)
    ensures Doubles(part).None? && !Drops(part)
  {
    assert part[..5] == "Takes";
    assert part[0] == 'T';
  }

  /** A "Takes" column records a take by the column's player, who becomes the one a Wins line credits. */
  lemma ColumnTake(part: string, player: int, p: Play)
    requires Takes(part)
    ensures Column(part, player, p) == (Play(p.game.(moves := p.game.moves + [NewRecord(Take, player, "")]), player), false)
  {
    TakeIsNotDouble(part);
  }

  /**
   * A column of dice and a move records a normal move by the column's
   * player: the two dice, the trimmed move text, and its point notation read
   * by `MatMove` when the text is not empty.
   */
  lemma ColumnMove(part: string, player: int, p: Play)
    requires Doubles(part).None? && !Takes(part) && !Drops(part) && DiceAndMove(part).Some?
    ensures var (c1, c2, m) := DiceAndMove(part).value;
      var moveStr := Text.TrimSpace(m);
      Column(part, player, p) ==
        (Play(p.game.(moves := p.game.moves + [NewRecord(Normal, player, "").(
           dice := (Text.DigitValue(c1), Text.DigitValue(c2)),
           moveString := moveStr,
           move := if moveStr != "" then MatMove(moveStr) else ZeroMove)]), player), false)
  {
  }

  /** Two filled columns with no drop in the first: column 0 (player 0) is played, then column 1 (player 1). */
  lemma RowTwoColumns(a: string, b: string, p: Play)
    requires a != "" && b != "" && !Drops(a)
    ensures Row([a, b], 0, p) == Column(b, 1, Column(a, 0, p).0).0
  {
    ColumnStops(a, 0, p);
    var q := Column(a, 0, p).0;
    ColumnStops(b, 1, q);
    assert Row([a, b], 0, p) == Row([a, b], 1, q);
  }

  // The player a Wins line credits

  /** The player a record leaves to be credited: the doubler, taker or mover, or the other side after a drop. */
  function Actor(mr: MoveRecord): int {
    if mr.kind == Drop then 1 - mr.player else mr.player
  }

  /** The reader's current player is the actor of the last record, or side 1 before the first. */
  predicate CurrentIsLastActor(p: Play) {
    p.current == if p.game.moves == [] then 1 else Actor(p.game.moves[|p.game.moves| - 1])
  }

  /** A "Drops" column records a drop by the column's player and credits the other side. */
  lemma ColumnDrop(part: string, player: int, p: Play)
    requires Drops(part)
    ensures Column(part, player, p) ==
      (Play(p.game.(moves := p.game.moves + [NewRecord(Drop, player, "")], winner := 1 - player), 1 - player), true)
  {
    DropIsNotDoubleOrTake(part);
  }

  /** Any other column changes nothing. */
  lemma ColumnIgnored(part: string, player: int, p: Play)
    requires Doubles(part).None? && !Takes(part) && !Drops(part) && DiceAndMove(part).None?
    ensures Column(part, player, p) == (p, false)
  {
  }

  lemma ColumnActor(part: string, player: int, p: Play)
    requires CurrentIsLastActor(p)
    ensures CurrentIsLastActor(Column(part, player, p).0)
  {
    if Doubles(part).Some? {
      ColumnDouble(part, player, p);
    } else if Takes(part) {
      ColumnTake(part, player, p);
    } else if Drops(part) {
      ColumnDrop(part, player, p);
    } else if DiceAndMove(part).Some? {
      ColumnMove(part, player, p);
    } else {
      ColumnIgnored(part, player, p);
    }
  }

  lemma {:induction false} RowActor(parts: seq<string>, i: nat, p: Play)
    requires CurrentIsLastActor(p)
    ensures CurrentIsLastActor(Row(parts, i, p))
    decreases |parts| - i
  {
    if i < |parts| {
      if parts[i] == "" {
        RowActor(parts, i + 1, p);
      } else {
        ColumnActor(parts[i], i, p);
        var (p', stop) := Column(parts[i], i, p);
        if !stop {
          RowActor(parts, i + 1, p');
        }
      }
    }
  }

  /** Every line of the move section keeps the current player the last actor. */
  lemma LineActor(line: string, p: Play)
    requires CurrentIsLastActor(p)
    ensures CurrentIsLastActor(MoveSectionLine(line, p).0)
  {
    if WinsLine(line).None? && Text.TrimSpace(line) != "" && GameHeader(line).None? && MoveLine(line).Some? {
      RowActor(SplitMoveLine(MoveLine(line).value), 0, p);
    }
  }

  lemma {:induction false} MovesActor(lines: seq<string>, pos: nat, p: Play)
    requires pos <= |lines| && CurrentIsLastActor(p)
    ensures CurrentIsLastActor(Moves(lines, pos, p).0)
    decreases |lines| - pos
  {
    if pos < |lines| {
      LineActor(lines[pos], p);
      var (p', done) := MoveSectionLine(lines[pos], p);
      if !done {
        MovesActor(lines, pos + 1, p');
      }
    }
  }

  /** A game's move section starts with no record and side 1 current. */
  lemma NewGameActor(number: int, score1: int, score2: int, matchLength: int)
    ensures CurrentIsLastActor(Play(NewMatGame(number, score1, score2, matchLength), 1))
  {
  }

  /**
   * A "Wins n point(s)" line ends the game and sets its points to n and its
   * winner to the last actor (side 1 when no record was read), and nothing
   * else.
   */
  lemma WinsCreditsLastActor(line: string, p: Play)
    requires CurrentIsLastActor(p) && WinsLine(line).Some?
    ensures var (q, done) := MoveSectionLine(line, p);
      var last := if p.game.moves == [] then 1 else Actor(p.game.moves[|p.game.moves| - 1]);
      done && q.game == p.game.(points := Text.Atoi(WinsLine(line).value).value, winner := last)
  {
  }

  /**
   * A row whose content has no gap of three blanks goes to column 0 whole,
   * so all it records is player 0's; since the content never starts with a
   * blank, a right column written alone is read as the left one.
   */
  lemma LoneColumnIsPlayerZero(line: string, p: Play)
    requires WinsLine(line).None? && GameHeader(line).None? && Text.TrimSpace(line) != ""
    requires MoveLine(line).Some? && FirstGap(MoveLine(line).value, 0).None?
    ensures var q := MoveSectionLine(line, p).0;
      forall k :: |p.game.moves| <= k < |q.game.moves| ==> q.game.moves[k].player == 0
  {
    var parts := SplitMoveLine(MoveLine(line).value);
    assert parts[1] == "";
    var r := Row(parts, 0, p);
    assert MoveSectionLine(line, p).0 == r;
    if parts[0] == "" {
      assert r == Row(parts, 1, p);
    } else {
      var (p', stop) := Column(parts[0], 0, p);
      if !stop {
        assert r == Row(parts, 1, p') == p';
      }
    }
  }

  lemma LineKeeps(line: string, p: Play)
    requires Settled(p)
    ensures KeepsHeader(p.game, MoveSectionLine(line, p).0.game) && Settled(MoveSectionLine(line, p).0)
  {
    if WinsLine(line).None? && Text.TrimSpace(line) != "" && GameHeader(line).None? && MoveLine(line).Some? {
      RowKeeps(SplitMoveLine(MoveLine(line).value), 0, p);
    }
  }

  lemma {:induction false} MovesKeep(lines: seq<string>, pos: nat, p: Play)
    requires pos <= |lines| && Settled(p)
    ensures KeepsHeader(p.game, Moves(lines, pos, p).0.game) && Settled(Moves(lines, pos, p).0)
    decreases |lines| - pos
  {
    if pos < |lines| {
      LineKeeps(lines[pos], p);
      var (p', done) := MoveSectionLine(lines[pos], p);
      if !done {
        MovesKeep(lines, pos + 1, p');
      }
    }
  }

  lemma {:induction false} BlanksSuffix(s: string)
    ensures |Blanks(s)| <= |s| && Blanks(s) == s[|s| - |Blanks(s)|..]
    decreases |s|
  {
    if s != [] && Text.IsReSpace(s[0]) {
      BlanksSuffix(s[1..]);
    }
  }

  /** A game header is not a blank line. */
  lemma HeaderIsNotBlank(line: string)
    requires GameHeader(line).Some?
    ensures Text.TrimSpace(line) != ""
  {
    var t := Blanks(line);
    var i := |line| - |t|;
    assert line[i] == 'G' by {
      assert t[..4] == "Game";
      BlanksSuffix(line);
    }
    var r := Text.TrimRightBy(line, Text.IsSpace);
    assert i < |r| by {
      Text.TrimRightByDrops(line, Text.IsSpace);
    }
    assert r[i] == 'G' by {
      Text.TrimRightByDrops(line, Text.IsSpace);
    }
    Text.TrimLeftByDrops(r, Text.IsSpace);
  }

  /** A game header is not a Wins line. */
  lemma HeaderIsNotWins(line: string)
    requires GameHeader(line).Some?
    ensures WinsLine(line).None?
  {
    var t := Blanks(line);
    assert t[..4] == "Game";
    assert t[0] == 'G';
  }

  /**
   * The move section ends with the first line that is a Wins line or a game
   * header, and that line is consumed with it: the next game's header search
   * starts after it.
   */
  lemma {:induction false} GameEndsAt(lines: seq<string>, pos: nat, p: Play, k: nat)
    requires pos <= k < |lines| && (WinsLine(lines[k]).Some? || GameHeader(lines[k]).Some?)
    requires forall j :: pos <= j < k ==> WinsLine(lines[j]).None? && GameHeader(lines[j]).None?
    ensures Moves(lines, pos, p).1 == k + 1
    decreases k - pos
  {
    var (p', done) := MoveSectionLine(lines[pos], p);
    if pos == k {
      LineEnds(lines[k], p);
    } else {
      LineContinues(lines[pos], p);
      GameEndsAt(lines, pos + 1, p', k);
    }
  }

  /** Any other line leaves the move section open. */
  lemma LineContinues(line: string, p: Play)
    requires WinsLine(line).None? && GameHeader(line).None?
    ensures !MoveSectionLine(line, p).1
  {
  }

  /** A Wins line or a game header ends the move section. */
  lemma LineEnds(line: string, p: Play)
    requires WinsLine(line).Some? || GameHeader(line).Some?
    ensures MoveSectionLine(line, p).1
  {
    if WinsLine(line).None? {
      HeaderIsNotBlank(line);
    }
  }

  // ---------------------------------------------------------------------------
  // The whole file

  /** A game as the reader produces it for a match of `matchLength` points. */
  predicate WellFormed(g: Game, matchLength: int) {
    g.gameNumber >= 1 && g.variation == "Standard" && g.cubeEnabled
    && (g.crawford <==> matchLength > 0) && (g.jacoby <==> matchLength == 0)
    && (g.crawfordGame ==> g.crawford) && -1 <= g.winner <= 1
  }

  lemma GameAtWellFormed(lines: seq<string>, pos: nat, matchLength: int, md: MatchMetadata)
    requires pos <= |lines|
    ensures var (step, md', _) := GameAt(lines, pos, matchLength, md);
      md'.matchLength == md.matchLength && (step.GameRead? ==> WellFormed(step.game, matchLength))
  {
    var (number, afterHeader) := HeaderFrom(lines, pos);
    if number != 0 && afterHeader < |lines| {
      var r := ScoredGame(lines[afterHeader], lines, afterHeader + 1, number, matchLength, md);
      ScoredGameWellFormed(lines[afterHeader], lines, afterHeader + 1, number, matchLength, md);
      assert GameAt(lines, pos, matchLength, md) == r;
    } else {
      assert GameAt(lines, pos, matchLength, md) == (EndOfGames, md, afterHeader);
    }
  }

  lemma ScoredGameWellFormed(scoreLine: string, lines: seq<string>, next: nat, number: int, matchLength: int, md: MatchMetadata)
    requires next <= |lines| && number >= 1
    ensures var (step, md', _) := ScoredGame(scoreLine, lines, next, number, matchLength, md);
      md'.matchLength == md.matchLength && (step.GameRead? ==> WellFormed(step.game, matchLength))
  {
    var sl := ScoreLine(scoreLine);
    if sl.Some? {
      var (name1, d1, name2, d2) := sl.value;
      var g0 := NewMatGame(number, Text.Atoi(d1).value, Text.Atoi(d2).value, matchLength);
      MovesKeep(lines, next, Play(g0, 1));
    }
  }

  lemma {:induction false} GamesFromOk(lines: seq<string>, pos: nat, skew: nat, matchLength: int, md: MatchMetadata, games: seq<Game>)
    requires pos <= |lines| && md.matchLength == matchLength
    requires forall i :: 0 <= i < |games| ==> WellFormed(games[i], matchLength)
    ensures var r := GamesFrom(lines, pos, skew, matchLength, md, games);
      r.Ok? ==> (r.value.games != [] && games <= r.value.games && r.value.metadata.matchLength == matchLength
        && forall i :: 0 <= i < |r.value.games| ==> WellFormed(r.value.games[i], matchLength))
    decreases |lines| - pos
  {
    var (step, md', end) := GameAt(lines, pos, matchLength, md);
    GameAtWellFormed(lines, pos, matchLength, md);
    if step.GameRead? {
      var more := games + [step.game];
      assert forall i :: 0 <= i < |more| ==> WellFormed(more[i], matchLength);
      GamesFromOk(lines, end, skew, matchLength, md', more);
    }
  }

  /**
   * A file that reads without error holds at least one game, and every game
   * carries the flags of the match length the metadata records.
   */
  lemma ParsedMatch(lines: seq<string>)
    ensures var r := MatResult(lines);
      r.Ok? ==> (r.value.games != []
        && forall i :: 0 <= i < |r.value.games| ==> WellFormed(r.value.games[i], r.value.metadata.matchLength))
  {
    var (md, matchLength, pos) := Preamble(lines, 0, EmptyMetadata);
    if matchLength != 0 {
      GamesFromOk(lines, pos, 0, matchLength, md, []);
    } else if pos < |lines| {
      GamesFromOk(lines, pos + 1, 1, matchLength, md, []);
    }
  }

  lemma {:induction false} PreambleWithoutHeader(lines: seq<string>, pos: nat, md: MatchMetadata)
    requires pos <= |lines| && forall i :: pos <= i < |lines| ==> MatchHeader(lines[i]).None?
    ensures Preamble(lines, pos, md).1 == 0 && Preamble(lines, pos, md).2 == |lines|
    decreases |lines| - pos
  {
    if pos < |lines| {
      match CommentLine(lines[pos])
      case Some(c) => PreambleWithoutHeader(lines, pos + 1, MetadataComment(md, c));
      case None => PreambleWithoutHeader(lines, pos + 1, md);
    }
  }

  /** A file with no match header line is refused as such. */
  lemma NoHeaderRefused(lines: seq<string>)
    requires forall i :: 0 <= i < |lines| ==> MatchHeader(lines[i]).None?
    ensures MatResult(lines) == Err(NoMatchHeader)
  {
    PreambleWithoutHeader(lines, 0, EmptyMetadata);
  }

  lemma {:induction false} NoHeaderFrom(lines: seq<string>, pos: nat)
    requires pos <= |lines| && forall i :: pos <= i < |lines| ==> GameHeader(lines[i]).None?
    ensures HeaderFrom(lines, pos) == (0, |lines|)
    decreases |lines| - pos
  {
    if pos < |lines| {
      NoHeaderFrom(lines, pos + 1);
    }
  }

  /**
   * After a "0 point match" header the reader takes one more line and drops
   * it: a "Game 1" header right after it is lost, and with no later header
   * the file is refused for having no games.
   */
  lemma ZeroLengthDropsNextLine(lines: seq<string>)
    requires |lines| >= 2 && CommentLine(lines[0]).None? && MatchHeader(lines[0]).Some?
    requires Text.Atoi(MatchHeader(lines[0]).value).value == 0
    requires GameHeader(lines[1]).Some?
    requires forall i :: 2 <= i < |lines| ==> GameHeader(lines[i]).None?
    ensures MatResult(lines) == Err(NoGames)
  {
    NoHeaderFrom(lines, 2);
    assert Preamble(lines, 0, EmptyMetadata) == (EmptyMetadata.(matchLength := 0), 0, 1);
  }
}
