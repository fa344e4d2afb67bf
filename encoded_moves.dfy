/**
 * gnuBG's letter-coded moves in SGF (converter.go): `decodePoint`, the pair
 * loop of `parseEncodedMove` / `parseEncodedMoveOption`, and how the encoding
 * relates to the rendering of `FormatMove`.
 */
module EncodedMoves {
  import opened Types

  /** `decodePoint`: 'a'..'x' are points 0..23, 'y' the bar, 'z' off, anything else -1. */
  function DecodePoint(c: char): (p: int)
    ensures -1 <= p <= 25
    ensures p == -1 <==> !('a' <= c <= 'z')
  {
    if 'a' <= c <= 'x' then c as int - 'a' as int
    else if c == 'y' then 24
    else if c == 'z' then 25
    else -1
  }

  /** Distinct letters decode to distinct points. */
  lemma DecodePointInjective(c: char, d: char)
    requires DecodePoint(c) != -1 && DecodePoint(c) == DecodePoint(d)
    ensures c == d
  {
  }

  /** The letter of a board point 0..23 as PointToString renders it for side 0. */
  function Letter(p: int): (c: char)
    requires 0 <= p <= 23
  {
    ('a' as int + p) as char
  }

  /** Decoding inverts the rendering of a board point 0..23. */
  lemma DecodeInvertsPointToString(p: int)
    requires 0 <= p <= 23
    ensures PointToString(p) == [Letter(p)] && DecodePoint(Letter(p)) == p
  {
  }

  /** The number of pairs the loop decodes: whole pairs of characters, at most four. */
  function EncodedPairs(encoded: string): (n: nat)
    ensures n <= 4 && 2 * n <= |encoded|
    ensures n < 4 ==> |encoded| <= 2 * n + 1
  {
    if |encoded| / 2 < 4 then |encoded| / 2 else 4
  }

  /**
   * The move array after the loop: the decoded pairs, then -1 in the next
   * slot if one is left, and the earlier contents everywhere else.
   */
  function EncodedMove(encoded: string, init: Move8): (m: Move8)
  {
    var n := EncodedPairs(encoded);
    seq(8, i requires 0 <= i < 8 =>
      if i < 2 * n then DecodePoint(encoded[i]) else if i == 2 * n then -1 else init[i])
  }

  /** The `moveIdx` loop shared by `parseEncodedMove` and `parseEncodedMoveOption`. */
  method FillMove(encoded: string, init: Move8) returns (move: Move8)
    ensures move == EncodedMove(encoded, init)
  {
    move := init;
    var moveIdx := 0;
    var i := 0;
    while i + 1 < |encoded| && moveIdx < 8
      invariant moveIdx == i && i % 2 == 0 && i <= 8 && i <= |encoded|
      invariant forall k :: 0 <= k < 8 ==> move[k] == (if k < i then DecodePoint(encoded[k]) else init[k])
    {
      var from := DecodePoint(encoded[i]);
      var to := DecodePoint(encoded[i + 1]);
      move := move[moveIdx := from][moveIdx + 1 := to];
      moveIdx := moveIdx + 2;
      i := i + 2;
    }
    assert i == 2 * EncodedPairs(encoded);
    if moveIdx < 8 {
      move := move[moveIdx := -1];
    }
  }

  /** `parseEncodedMove`: fills the record's move and renders it for the record's side. */
  method ParseEncodedMove(encoded: string, mr: MoveRecord) returns (r: MoveRecord)
    ensures r == mr.(move := EncodedMove(encoded, mr.move),
                     moveString := MoveText(EncodedMove(encoded, mr.move), mr.player))
  {
    var move := FillMove(encoded, mr.move);
    var text := FormatMove(move, mr.player);
    r := mr.(move := move, moveString := text);
  }

  /** `parseEncodedMoveOption`: the same for an analysed option, always rendered for side 0. */
  method ParseEncodedMoveOption(encoded: string, opt: MoveOption) returns (r: MoveOption)
    ensures r == opt.(move := EncodedMove(encoded, opt.move),
                      moveString := MoveText(EncodedMove(encoded, opt.move), 0))
  {
    var move := FillMove(encoded, opt.move);
    var text := FormatMove(move, 0);
    r := opt.(move := move, moveString := text);
  }

  // ---------------------------------------------------------------------------
  // Round trip with FormatMove

  /** The text with every '/' and ' ' removed. */
  function Compact(s: string): (r: string)
    ensures |r| <= |s|
  {
    if s == [] then []
    else (if s[0] == '/' || s[0] == ' ' then [] else [s[0]]) + Compact(s[1..])
  }

  lemma {:induction false} CompactAppend(a: string, b: string)
    ensures Compact(a + b) == Compact(a) + Compact(b)
    decreases |a|
  {
    if a != [] {
      assert (a + b)[1..] == a[1..] + b;
      CompactAppend(a[1..], b);
    } else {
      assert a + b == b;
    }
  }

  /** The slots of the first k pairs all hold board points 0..23. */
  predicate BoardPairs(move: Move8, k: nat) {
    k <= 4 && forall j :: 0 <= j < 2 * k ==> 0 <= move[j] <= 23
  }

  /** The letters of the first k pairs, two per pair. */
  function Letters(move: Move8, k: nat): (s: string)
    requires BoardPairs(move, k)
    ensures |s| == 2 * k
    ensures forall j :: 0 <= j < 2 * k ==> s[j] == Letter(move[j])
  {
    if k == 0 then [] else Letters(move, k - 1) + [Letter(move[2 * k - 2]), Letter(move[2 * k - 1])]
  }

  /** Pair k over board points compacts to its two letters. */
  lemma SegmentCompact(move: Move8, k: nat)
    requires k < 4 && 0 <= move[2 * k] <= 23 && 0 <= move[2 * k + 1] <= 23
    ensures Compact(Segment(move, 0, k)) == [Letter(move[2 * k]), Letter(move[2 * k + 1])]
  {
    var p, q := move[2 * k], move[2 * k + 1];
    DecodeInvertsPointToString(p);
    DecodeInvertsPointToString(q);
    assert Segment(move, 0, k) == [Letter(p)] + ("/" + [Letter(q)]);
    CompactAppend([Letter(p)], "/" + [Letter(q)]);
    CompactAppend("/", [Letter(q)]);
  }

  lemma {:induction false} CompactJoined(move: Move8, k: nat)
    requires BoardPairs(move, k)
    ensures Compact(Joined(move, 0, k)) == Letters(move, k)
  {
    if k == 1 {
      SegmentCompact(move, 0);
    } else if k > 1 {
      CompactJoined(move, k - 1);
      CompactJoinedStep(move, k);
    }
  }

  /** Joining one more pair, after a blank, appends that pair's two letters. */
  lemma CompactJoinedStep(move: Move8, k: nat)
    requires 1 < k && BoardPairs(move, k) && Compact(Joined(move, 0, k - 1)) == Letters(move, k - 1)
    ensures Compact(Joined(move, 0, k)) == Letters(move, k)
  {
    var before, seg := Joined(move, 0, k - 1), Segment(move, 0, k - 1);
    var pair := [Letter(move[2 * k - 2]), Letter(move[2 * k - 1])];
    assert Joined(move, 0, k) == before + " " + seg;
    assert Letters(move, k) == Letters(move, k - 1) + pair;
    SegmentCompact(move, k - 1);
    CompactAppend(before, " ");
    assert Compact(before + " ") == Compact(before) by {
      assert Compact(" ") == [];
    }
    CompactAppend(before + " ", seg);
  }

  /**
   * Deleting '/' and ' ' from the rendering of a side-0 move over board
   * points and decoding the letters gives back the same pairs and the -1
   * that ends them.
   */
  lemma RenderThenDecode(move: Move8, init: Move8)
    requires move[0] != -1 && BoardPairs(move, PairCount(move))
    ensures var k := PairCount(move);
      var r := EncodedMove(Compact(MoveText(move, 0)), init);
      (forall j :: 0 <= j < 2 * k ==> r[j] == move[j]) && (k < 4 ==> r[2 * k] == -1 == move[2 * k])
  {
    var k := PairCount(move);
    CompactJoined(move, k);
    var text := Compact(MoveText(move, 0));
    assert text == Letters(move, k);
    assert EncodedPairs(text) == k;
    forall j | 0 <= j < 2 * k
      ensures EncodedMove(text, init)[j] == move[j]
    {
      DecodeInvertsPointToString(move[j]);
    }
  }

  /** "no move" does not round-trip: its letters decode as a pair from point 13. */
  lemma NoMoveDoesNotRoundTrip(move: Move8, init: Move8)
    requires move[0] == -1
    ensures EncodedMove(Compact(MoveText(move, 0)), init)[0] == 13
  {
    var s := MoveText(move, 0);
    assert s[0] == 'n' && s[1] == 'o';
    CompactStartsWith(s);
  }

  /** A text whose first two characters are not '/' or ' ' keeps them at the front of its compaction. */
  lemma CompactStartsWith(s: string)
    requires |s| >= 2 && s[0] != '/' && s[0] != ' ' && s[1] != '/' && s[1] != ' '
    ensures |Compact(s)| >= 2 && Compact(s)[0] == s[0] && Compact(s)[1] == s[1]
  {
    assert Compact(s) == [s[0]] + Compact(s[1..]);
    assert Compact(s[1..]) == [s[1]] + Compact(s[1..][1..]);
  }
}
