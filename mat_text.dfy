/**
 * The line-level pieces of matparser.go: the anchored regular expressions it
 * matches lines against, written out as functions on the characters, the
 * column splitter `splitMoveLine`, and the move notation readers
 * `parseMatPoint` and `parseMatMove`.
 */
module MatText {
  import opened Wrappers
  import Text
  import opened Types

  // ---------------------------------------------------------------------------
  // Regular-expression building blocks. `\s` is Go's ASCII class (Text.IsReSpace).

  /** The length of the leading run of characters satisfying `p`. */
  function Run(s: string, p: char -> bool): (n: nat)
    ensures n <= |s|
    ensures n < |s| ==> !p(s[n])
    decreases |s|
  {
    if s != [] && p(s[0]) then 1 + Run(s[1..], p) else 0
  }

  /** `\s*`: drops the leading blanks. */
  function Blanks(s: string): string
    decreases |s|
  {
    if s != [] && Text.IsReSpace(s[0]) then Blanks(s[1..]) else s
  }

  lemma {:induction false} BlanksStop(s: string)
    ensures Blanks(s) == [] || !Text.IsReSpace(Blanks(s)[0])
    decreases |s|
  {
    if s != [] && Text.IsReSpace(s[0]) {
      BlanksStop(s[1..]);
    }
  }

  /** `\s+`: drops at least one leading blank. */
  function Blanks1(s: string): Option<string> {
    if s != [] && Text.IsReSpace(s[0]) then Some(Blanks(s[1..])) else None
  }

  /** `\s*$`: only blanks are left. */
  predicate AtEnd(s: string) {
    Blanks(s) == []
  }

  /** The leading digits and what follows them. */
  function SplitDigits(s: string): (string, string)
    decreases |s|
  {
    if s != [] && Text.IsDigit(s[0]) then
      var (d, rest) := SplitDigits(s[1..]);
      ([s[0]] + d, rest)
    else ([], s)
  }

  /** `(\d+)`: the leading digits, at least one, and what follows them. */
  function Digits1(s: string): Option<(string, string)> {
    if s != [] && Text.IsDigit(s[0]) then Some(SplitDigits(s)) else None
  }

  /** A literal: what follows it when `s` starts with it. */
  function Literal(s: string, lit: string): Option<string> {
    if |lit| <= |s| && s[..|lit|] == lit then Some(s[|lit|..]) else None
  }

  /** `(.*)$` without the `s` flag: the rest, provided it holds no newline. */
  function RestOfLine(s: string): Option<string> {
    if '\n' in s then None else Some(s)
  }

  // ---------------------------------------------------------------------------
  // The anchored line patterns

  /** `matchHeaderRe`, `^\s*(\d+)\s+point\s+match\s*$`: the match length digits. */
  function MatchHeader(line: string): Option<string> {
    match Digits1(Blanks(line))
    case None => None
    case Some((d, r)) =>
      match Blanks1(r)
      case None => None
      case Some(r) =>
        match Literal(r, "point")
        case None => None
        case Some(r) =>
          match Blanks1(r)
          case None => None
          case Some(r) =>
            match Literal(r, "match")
            case None => None
            case Some(r) => if AtEnd(r) then Some(d) else None
  }

  /** `gameHeaderRe`, `^\s*Game\s+(\d+)\s*$`: the game number digits. */
  function GameHeader(line: string): Option<string> {
    match Literal(Blanks(line), "Game")
    case None => None
    case Some(r) =>
      match Blanks1(r)
      case None => None
      case Some(r) =>
        match Digits1(r)
        case None => None
        case Some((d, r)) => if AtEnd(r) then Some(d) else None
  }

  /**
   * `moveLineRe`, `^\s*(\d+)\)\s*(.*)$`: the row content after the number.
   * The blanks after ')' are not part of it, so the content never starts
   * with a blank, however far right its first column was.
   */
  function MoveLine(line: string): (r: Option<string>)
    ensures r.Some? ==> '\n' !in r.value && (r.value == [] || !Text.IsReSpace(r.value[0]))
  {
    match Digits1(Blanks(line))
    case None => None
    case Some((_, r)) =>
      match Literal(r, ")")
      case None => None
      case Some(r) => BlanksStop(r); RestOfLine(Blanks(r))
  }

  /** `commentLineRe`, `^\s*[;#]\s*(.*)$`: the comment text. */
  function CommentLine(line: string): Option<string> {
    var t := Blanks(line);
    if t != [] && (t[0] == ';' || t[0] == '#') then RestOfLine(Blanks(t[1..])) else None
  }

  /** `winsLineRe`, `^\s*Wins\s+(\d+)\s+points?\s*$`: the points digits. */
  function WinsLine(line: string): Option<string> {
    match Literal(Blanks(line), "Wins")
    case None => None
    case Some(r) =>
      match Blanks1(r)
      case None => None
      case Some(r) =>
        match Digits1(r)
        case None => None
        case Some((d, r)) =>
          match Blanks1(r)
          case None => None
          case Some(r) =>
            match Literal(r, "point")
            case None => None
            case Some(r) =>
              var r := if r != [] && r[0] == 's' then r[1..] else r;
              if AtEnd(r) then Some(d) else None
  }

  /** `doublesRe`, `^Doubles\s*=>\s*(\d+)\s*$`: the new cube value digits. */
  function Doubles(part: string): Option<string> {
    match Literal(part, "Doubles")
    case None => None
    case Some(r) =>
      match Literal(Blanks(r), "=>")
      case None => None
      case Some(r) =>
        match Digits1(Blanks(r))
        case None => None
        case Some((d, r)) => if AtEnd(r) then Some(d) else None
  }

  /** `takesRe`, `^Takes\s*$`. */
  predicate Takes(part: string) {
    match Literal(part, "Takes")
    case None => false
    case Some(r) => AtEnd(r)
  }

  /** `dropsRe`, `^Drops\s*$`. */
  predicate Drops(part: string) {
    match Literal(part, "Drops")
    case None => false
    case Some(r) => AtEnd(r)
  }

  /** `diceAndMoveRe`, `^(\d)(\d):\s*(.*)$`: the two dice and the move text. */
  function DiceAndMove(part: string): (r: Option<(char, char, string)>)
    ensures r.Some? ==> Text.IsDigit(r.value.0) && Text.IsDigit(r.value.1)
  {
    if |part| >= 3 && Text.IsDigit(part[0]) && Text.IsDigit(part[1]) && part[2] == ':' then
      match RestOfLine(Blanks(part[3..]))
      case None => None
      case Some(m) => Some((part[0], part[1], m))
    else None
  }

  // ---------------------------------------------------------------------------
  // scoreLineRe, `^\s*(\S+.*?)\s*:\s*(\d+)\s+(\S+.*?)\s*:\s*(\d+)\s*$`

  predicate NonBlank(c: char) { !Text.IsReSpace(c) }

  predicate NotNewline(c: char) { c != '\n' }

  /**
   * `(\S+.*?)` followed by whatever `tail` accepts, with the leftmost-first
   * preference of the regular expression: the greedy `\S+` takes the whole
   * run of non-blanks and the lazy `.*?` then grows one character at a time up
   * to the first newline; only when no such end works does `\S+` give back
   * characters, one at a time.
   */
  function LazyThen<T>(t: string, tail: string -> Option<T>): (r: Option<(string, T)>)
    ensures r.Some? ==> r.value.0 <= t && r.value.0 != [] && NonBlank(r.value.0[0])
    ensures r.Some? ==> tail(t[|r.value.0|..]) == Some(r.value.1)
  {
    var m := Run(t, NonBlank);
    if m == 0 then None
    else match Upward(t, m, Run(t, NotNewline), tail)
      case Some(x) => Some(x)
      case None => Downward(t, m - 1, tail)
  }

  /** The first end at `e`, `e + 1`, ... up to `l` after which `tail` accepts. */
  function Upward<T>(t: string, e: nat, l: nat, tail: string -> Option<T>): (r: Option<(string, T)>)
    requires e <= |t| && l <= |t|
    ensures r.Some? ==> r.value.0 <= t && e <= |r.value.0|
    ensures r.Some? ==> tail(t[|r.value.0|..]) == Some(r.value.1)
    decreases l - e
  {
    match tail(t[e..])
    case Some(x) => Some((t[..e], x))
    case None => if e >= l then None else Upward(t, e + 1, l, tail)
  }

  /** The first end at `e`, `e - 1`, ... down to 1 after which `tail` accepts. */
  function Downward<T>(t: string, e: nat, tail: string -> Option<T>): (r: Option<(string, T)>)
    requires e <= |t|
    ensures r.Some? ==> r.value.0 <= t && 0 < |r.value.0| <= e
    ensures r.Some? ==> tail(t[|r.value.0|..]) == Some(r.value.1)
    decreases e
  {
    if e == 0 then None
    else match tail(t[e..])
      case Some(x) => Some((t[..e], x))
      case None => Downward(t, e - 1, tail)
  }

  /** `\s*:\s*(\d+)\s*$`: the second score. */
  function SecondScore(s: string): Option<string> {
    match Literal(Blanks(s), ":")
    case None => None
    case Some(r) =>
      match Digits1(Blanks(r))
      case None => None
      case Some((d, r)) => if AtEnd(r) then Some(d) else None
  }

  /** `\s*:\s*(\d+)\s+(\S+.*?)\s*:\s*(\d+)\s*$`: first score, second name, second score. */
  function FirstScore(s: string): (r: Option<(string, string, string)>)
    ensures r.Some? ==> r.value.1 != [] && NonBlank(r.value.1[0])
  {
    match Literal(Blanks(s), ":")
    case None => None
    case Some(r) =>
      match Digits1(Blanks(r))
      case None => None
      case Some((d, r)) =>
        match Blanks1(r)
        case None => None
        case Some(r) =>
          match LazyThen(r, SecondScore)
          case None => None
          case Some((name, d2)) => Some((d, name, d2))
  }

  /** `scoreLineRe`: the two names (untrimmed) and the two score digit strings. */
  function ScoreLine(line: string): (r: Option<(string, string, string, string)>)
    ensures r.Some? ==> r.value.0 != [] && NonBlank(r.value.0[0]) && r.value.2 != [] && NonBlank(r.value.2[0])
  {
    match LazyThen(Blanks(line), FirstScore)
    case None => None
    case Some((name1, (d1, name2, d2))) => Some((name1, d1, name2, d2))
  }

  // ---------------------------------------------------------------------------
  // The unanchored metadata patterns

  /** The first match of `m` at any position of `s`, leftmost first. */
  function FirstMatch<T>(s: string, m: string -> Option<T>): Option<T>
    decreases |s|
  {
    if m(s).Some? then m(s) else if s == [] then None else FirstMatch(s[1..], m)
  }

  predicate NotQuote(c: char) { c != '"' }

  /** `\[<name>\s+"([^"]+)"\]` starting at the first character of `s`. */
  function TagAt(s: string, name: string): Option<string> {
    match Literal(s, "[" + name)
    case None => None
    case Some(r) =>
      match Blanks1(r)
      case None => None
      case Some(r) =>
        match Literal(r, "\"")
        case None => None
        case Some(r) =>
          var n := Run(r, NotQuote);
          if n == 0 then None
          else match Literal(r[n..], "\"]")
            case None => None
            case Some(_) => Some(r[..n])
  }

  /** `eventRe`, `roundRe`, `siteRe`, `transcriberRe`: the quoted value of the first such tag. */
  function MetaTag(comment: string, name: string): Option<string> {
    FirstMatch(comment, s => TagAt(s, name))
  }

  /** Exactly `n` digits, and what follows them. */
  function DigitsN(s: string, n: nat): (r: Option<(string, string)>)
    ensures r.Some? ==> |r.value.0| == n && Text.AllDigits(r.value.0)
  {
    if |s| >= n && Text.AllDigits(s[..n]) then Some((s[..n], s[n..])) else None
  }

  /** `\[EventDate\s+"(\d{4})\.(\d{2})\.(\d{2})"\]` starting at the first character of `s`. */
  function EventDateAt(s: string): (r: Option<(string, string, string)>)
    ensures r.Some? ==> DateDigits(r.value)
  {
    match Literal(s, "[EventDate")
    case None => None
    case Some(r) =>
      match Blanks1(r)
      case None => None
      case Some(r) =>
        match Literal(r, "\"")
        case None => None
        case Some(r) =>
          match DigitsN(r, 4)
          case None => None
          case Some((y, r)) =>
            match Literal(r, ".")
            case None => None
            case Some(r) =>
              match DigitsN(r, 2)
              case None => None
              case Some((mo, r)) =>
                match Literal(r, ".")
                case None => None
                case Some(r) =>
                  match DigitsN(r, 2)
                  case None => None
                  case Some((d, r)) =>
                    match Literal(r, "\"]")
                    case None => None
                    case Some(_) => Some((y, mo, d))
  }

  /** Four, two and two digits. */
  predicate DateDigits(ymd: (string, string, string)) {
    |ymd.0| == 4 && |ymd.1| == 2 && |ymd.2| == 2
    && Text.AllDigits(ymd.0) && Text.AllDigits(ymd.1) && Text.AllDigits(ymd.2)
  }

  /** `eventDateRe`: year, month and day digits of the leftmost EventDate tag. */
  function EventDate(comment: string): (r: Option<(string, string, string)>)
    ensures r.Some? ==> DateDigits(r.value)
    decreases |comment|
  {
    match EventDateAt(comment)
    case Some(ymd) => Some(ymd)
    case None => if comment == [] then None else EventDate(comment[1..])
  }

  /** `fmt.Sprintf("%04d-%02d-%02d", year, month, day)` of the three captures. */
  function DateText(y: string, m: string, d: string): string
    requires Text.AllDigits(y) && Text.AllDigits(m) && Text.AllDigits(d)
  {
    Pad(y, 4) + "-" + Pad(m, 2) + "-" + Pad(d, 2)
  }

  /** The Atoi value of a digit string, zero-padded to `width`. */
  function Pad(s: string, width: nat): string
    requires Text.AllDigits(s)
  {
    assert s != [] ==> Text.IsDigit(s[0]);
    Text.ZeroPad(Text.Atoi(s).value, width)
  }

  // ---------------------------------------------------------------------------
  // splitMoveLine

  predicate GapAt(s: string, k: nat) {
    k + 3 <= |s| && Text.IsReSpace(s[k]) && Text.IsReSpace(s[k + 1]) && Text.IsReSpace(s[k + 2])
  }

  /** The start of the leftmost run of three or more blanks at or after `k`. */
  function FirstGap(s: string, k: nat): (r: Option<nat>)
    ensures r.Some? ==> k <= r.value && GapAt(s, r.value)
    ensures r.Some? ==> forall j :: k <= j < r.value ==> !GapAt(s, j)
    ensures r.None? ==> forall j :: k <= j ==> !GapAt(s, j)
    decreases |s| - k
  {
    if k + 3 > |s| then None
    else if GapAt(s, k) then Some(k)
    else FirstGap(s, k + 1)
  }

  /**
   * `splitMoveLine`: at the leftmost run of three or more blanks (taken
   * whole), both sides trimmed; with no such run, the whole trimmed line in
   * column 0 and "" in column 1.
   */
  function SplitMoveLine(line: string): (cols: seq<string>)
    ensures |cols| == 2
  {
    match FirstGap(line, 0)
    case None => [Text.TrimSpace(line), ""]
    case Some(k) =>
      [Text.TrimSpace(line[..k]), Text.TrimSpace(Blanks(line[k..]))]
  }

  // ---------------------------------------------------------------------------
  // parseMatPoint and parseMatMove

  /**
   * `parseMatPoint`: after trimming and removing one trailing '*', "bar" in
   * any case is 24, "off" in any case is -1, an integer 1..24 is one less,
   * anything else -2.
   */
  function ParseMatPoint(s: string): (p: int)
    ensures -2 <= p <= 24
  {
    var t := Text.TrimSuffix(Text.TrimSpace(s), "*");
    var lower := Text.ToLower(t);
    if lower == "bar" then 24
    else if lower == "off" then -1
    else
      var n := Text.Atoi(t);
      if !n.ok then -2
      else if 1 <= n.value <= 24 then n.value - 1
      else -2
  }

  /** The pair one field contributes: "a/b" with one slash, a usable from-point and a usable to-point. */
  function FieldPair(field: string): (ps: seq<(int, int)>)
    ensures |ps| <= 1
  {
    var halves := Text.Split(field, "/");
    if |halves| != 2 then []
    else
      var from := ParseMatPoint(halves[0]);
      var to := ParseMatPoint(halves[1]);
      if from >= 0 && to >= -1 then [(from, to)] else []
  }

  /** The pairs of the fields, in order. */
  function Pairs(fields: seq<string>): seq<(int, int)>
    decreases |fields|
  {
    if fields == [] then [] else Pairs(fields[..|fields| - 1]) + FieldPair(fields[|fields| - 1])
  }

  /** Every usable field gives a from-point 0..24 and a to-point -1..24. */
  lemma {:induction false} PairsInRange(fields: seq<string>)
    ensures forall k :: 0 <= k < |Pairs(fields)| ==> 0 <= Pairs(fields)[k].0 <= 24 && -1 <= Pairs(fields)[k].1 <= 24
    decreases |fields|
  {
    if fields != [] {
      PairsInRange(fields[..|fields| - 1]);
    }
  }

  const NoMatMove: Move8 := [-1, -1, -1, -1, -1, -1, -1, -1]

  /** The first four pairs laid out two slots each, -1 in the slots left over. */
  function Layout(pairs: seq<(int, int)>): (m: Move8)
  {
    seq(8, j requires 0 <= j < 8 =>
      if j / 2 < |pairs| then (if j % 2 == 0 then pairs[j / 2].0 else pairs[j / 2].1) else -1)
  }

  predicate CannotMove(moveStr: string) {
    moveStr == "" || Text.Contains(Text.ToLower(moveStr), "can't move")
  }

  /**
   * What `parseMatMove` returns: every slot a point -1..24, and no move at
   * all exactly when the first from-slot is -1.
   */
  function MatMove(moveStr: string): (m: Move8)
    ensures forall j :: 0 <= j < 8 ==> -1 <= m[j] <= 24
    ensures m[0] == -1 <==> m == NoMatMove
  {
    if CannotMove(moveStr) then NoMatMove
    else
      PairsInRange(Text.Fields(moveStr));
      Layout(Pairs(Text.Fields(moveStr)))
  }

  lemma LayoutStep(pairs: seq<(int, int)>, p: (int, int), move: Move8)
    requires |pairs| < 4 && move == Layout(pairs)
    ensures move[2 * |pairs| := p.0][2 * |pairs| + 1 := p.1] == Layout(pairs + [p])
  {
  }

  lemma {:induction false} PairsPrefix(fields: seq<string>, i: nat)
    requires i <= |fields|
    ensures |Pairs(fields[..i])| <= |Pairs(fields)|
    ensures Pairs(fields)[..|Pairs(fields[..i])|] == Pairs(fields[..i])
    decreases |fields|
  {
    if i == |fields| {
      assert fields[..i] == fields;
    } else {
      var init := fields[..|fields| - 1];
      assert init[..i] == fields[..i];
      PairsPrefix(init, i);
      var a := Pairs(fields[..i]);
      var b := Pairs(init);
      assert Pairs(fields) == b + FieldPair(fields[|fields| - 1]);
      assert (b + FieldPair(fields[|fields| - 1]))[..|a|] == b[..|a|];
    }
  }

  lemma PairsStep(fields: seq<string>, i: nat)
    requires i < |fields|
    ensures Pairs(fields[..i + 1]) == Pairs(fields[..i]) + FieldPair(fields[i])
  {
    assert fields[..i + 1][..i] == fields[..i];
  }

  lemma LayoutFirstFour(a: seq<(int, int)>, b: seq<(int, int)>)
    requires |a| >= 4 && |a| <= |b| && b[..|a|] == a
    ensures Layout(a) == Layout(b)
  {
    forall j | 0 <= j < 8 ensures Layout(a)[j] == Layout(b)[j] {
      assert b[j / 2] == a[j / 2];
    }
  }

  /** One field of the loop of `parseMatMove`: a usable pair goes into the next two slots. */
  method AddField(part: string, move: Move8, idx: nat, ghost acc: seq<(int, int)>) returns (move': Move8, idx': nat)
    requires idx == 2 * |acc| < 8 && move == Layout(acc)
    ensures idx' == 2 * |acc + FieldPair(part)| && idx' <= idx + 2
    ensures move' == Layout(acc + FieldPair(part))
  {
    var two, from, to := FieldPoints(part);
    move', idx' := PlacePair(move, idx, acc, two && from >= 0 && to >= -1, from, to);
  }

  /** Writes (from, to) into the next two slots when `usable`, and leaves the move alone otherwise. */
  method PlacePair(move: Move8, idx: nat, ghost acc: seq<(int, int)>, usable: bool, from: int, to: int)
    returns (move': Move8, idx': nat)
    requires idx == 2 * |acc| < 8 && move == Layout(acc)
    ensures var extra := if usable then [(from, to)] else [];
      idx' == 2 * |acc + extra| && move' == Layout(acc + extra)
  {
    if usable {
      LayoutStep(acc, (from, to), move);
      return move[idx := from][idx + 1 := to], idx + 2;
    }
    AppendNothing(acc);
    return move, idx;
  }

  /**
   * The points of a field: whether `strings.Split(part, "/")` gave exactly
   * two halves, and the from- and to-point read from them.
   */
  method FieldPoints(part: string) returns (two: bool, from: int, to: int)
    ensures two <==> |Text.Split(part, "/")| == 2
    ensures two ==> from == ParseMatPoint(Text.Split(part, "/")[0]) && to == ParseMatPoint(Text.Split(part, "/")[1])
    ensures FieldPair(part) == if two && from >= 0 && to >= -1 then [(from, to)] else []
  {
    var moveparts := Text.Split(part, "/");
    two := |moveparts| == 2;
    if two {
      from := ParseMatPoint(moveparts[0]);
      to := ParseMatPoint(moveparts[1]);
    } else {
      from, to := -2, -2;
    }
  }

  /** `parseMatMove`: the fields' pairs in order, at most four, in a move that starts all -1. */
  method ParseMatMove(moveStr: string) returns (move: Move8)
    ensures move == MatMove(moveStr)
  {
    move := NoMatMove;
    if moveStr == "" || Text.Contains(Text.ToLower(moveStr), "can't move") {
      return move;
    }
    var parts := Text.Fields(moveStr);
    move := FillPairs(parts);
  }

  /** The field loop of `parseMatMove`, stopping once eight slots are filled. */
  method FillPairs(parts: seq<string>) returns (move: Move8)
    ensures move == Layout(Pairs(parts))
  {
    move := NoMatMove;
    var idx := 0;
    var i := 0;
    ghost var acc: seq<(int, int)> := [];
    assert parts[..0] == [];
    while i < |parts| && idx < 8
      invariant 0 <= i <= |parts|
      invariant acc == Pairs(parts[..i])
      invariant |acc| <= 4 && idx == 2 * |acc|
      invariant move == Layout(acc)
    {
      PairsStep(parts, i);
      ghost var extra := FieldPair(parts[i]);
      assert |acc + extra| <= 4;
      move, idx := AddField(parts[i], move, idx, acc);
      acc := acc + extra;
      i := i + 1;
    }
    PairsPrefix(parts, i);
    if i < |parts| {
      LayoutFirstFour(Pairs(parts[..i]), Pairs(parts));
    } else {
      assert parts[..i] == parts;
    }
  }
}
