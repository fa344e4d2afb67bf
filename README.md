# gnubgparser in Dafny

A model of the core of gnubgparser, a Go library that reads backgammon
matches exported by GNU Backgammon. It reads two formats.

* **SGF** (Smart Game Format). A recursive-descent reader (`SGFParser`) with
  one character of push-back turns the text into game trees. Each node maps a
  property name of one or two letters to its list of bracketed values. Only
  the first-child line of each tree is kept; variations in parentheses are
  read over by counting parentheses. A converter then turns each tree into a
  `Game`:
  * the root node gives the match metadata (`MI`, `RU`, `RE`, `CV` and the
    text properties);
  * every node along the line gives zero or more `MoveRecord`s: moves encoded
    as letters (`B[52lpab]`), cube actions, board set-up, cube value and
    position, dice;
  * the `A`, `DA`, `LU` and `SK` properties give the move and cube analysis,
    luck and skill.
* **MAT** (the plain-text match format). A line scanner (`MATParser`) reads:
  * comment lines with the event tags, up to the `N point match` header;
  * for each game, a `Game N` header, a score line, and numbered move lines
    holding two columns;
  * a `Wins N point` line.

  Each column is a dice roll and a move in point notation (`6/5 8/5`,
  `bar/23*`), or a cube action. `FormatMove` renders the eight-slot move
  array as text (`f/d`, `bar/off`).

The model keeps the shape of the Go code:

* The two readers are classes (`SgfParser.SGFParser`,
  `MatParser.MATParser`) whose fields the methods update.
* The SGF converter is a class (`Converter.MatchConverter`) that holds the
  match metadata and the game under construction.
* Every loop is a `while` loop.
* Each method is proved to compute a function: a grammar function on the
  characters not yet consumed (`SgfGrammar`), or a function on the remaining
  lines (`MatParser.Moves`, `GameAt`, `GamesFrom`, `MatResult`). The
  properties are proved about those functions. Go's `strings` and `strconv`
  helpers that the code relies on (`TrimSpace`, `Fields`, `Split`, `Atoi`
  with its 64-bit range, `ToLower`) are written out in module `Text`.

Behaviours of the source that the model keeps as written:

* In `processNode`, `DI` appends its record before `LU` is read into a
  copy, so a dice record never carries luck (`SetupRecordsCarryNoAnalysis`).
* `getProperty` returns the first value only. `MI[length:7][game:1]...`
  therefore sets only the match length (`MatchInfoFirstValueOnly`).
* In the MAT reader, a `Game N` line that ends a game without a `Wins` line
  is consumed with that game (`GameEndsAt`).
* After a `0 point match` header, the reader's check for a header reads one
  more line and drops it, so a `Game 1` line right after the header is lost
  (`ZeroLengthDropsNextLine`).
* `moveLineRe` skips the blanks after `N)`, so a move line whose only column
  stood on the right is read as the left column and credited to player 0
  (`MoveLine`, `LoneColumnIsPlayerZero`).
* `pointToString` converts `'a' + point` to a 32-bit rune, so a point
  beyond 32 bits is cut to its low 32 bits before it becomes a character
  (`Types.RuneString`).

## Model

| member | source | states |
|---|---|---|
| SgfGrammar.SkipWs | parser.go:304-316 | what remains is a suffix of the input that does not start with space, tab, CR or LF |
| SgfGrammar.SkipWsDropsBlanks | parser.go:304-316 | exactly the leading run of blanks is dropped, nothing after it |
| SgfGrammar.ValueBody | parser.go:236-266 | a value body consumes at least one character; its only error is end of input |
| SgfGrammar.PropValue | parser.go:236-266 | a bracketed value consumes at least one character |
| SgfGrammar.Values | parser.go:192-233 | the value loop stops at a character that is not '[' and never at end of input |
| SgfGrammar.NameFrom | parser.go:192-233 | the name loop consumes at least one character when the input starts with a letter |
| SgfGrammar.Property | parser.go:192-233 | a property starting at a letter consumes input |
| SgfGrammar.NodeProps | parser.go:159-189 | the property loop of a node stops before a non-letter, never at end of input |
| SgfGrammar.NodeSpec | parser.go:159-189 | a node consumes at least its ';' |
| SgfGrammar.SkipVariation | parser.go:134-149 | skipping a variation consumes input while parentheses are open; its only error is end of input |
| SgfGrammar.GameBody | parser.go:107-153 | a game body consumes input up to its ')' and yields at least one node |
| SgfGrammar.Finish | parser.go:104-155 | a finished body gives a game exactly when the body parsed; the root carries the chain's first properties |
| SgfGrammar.GameSpec | parser.go:96-156 | a game consumes input |
| SgfProperties.BodyUnexpectedChar | parser.go:150-152 | inside a game, a character other than ')', ';', '(' or a blank is an "unexpected character" error naming that character |
| SgfGrammar.GetProperty | parser.go:320-325 | a property with at least one value gives its first value; an absent property or one with no values gives "" |
| SgfGrammar.GetPropertyInt | parser.go:327-334 | an empty value gives 0; any other value gives what Atoi returns, whether or not Atoi reports an error |
| SgfProperties.GetPropertyIntSyntax | parser.go:327-334 | a value whose digits are broken by another character within the first 19 reads as 0, the syntax error being dropped |
| Text.AtoiSyntax | parser.go:332 | Atoi returns 0 with an error when a character other than a digit follows the sign within the first 19 characters |
| SgfParser.SGFParser.constructor | parser.go:26-30 | a new reader returns the whole input, in order |
| SgfParser.SGFParser.ReadChar | parser.go:269-281 | returns the pushed-back character or the next input character, and fails exactly at end of input |
| SgfParser.SGFParser.PeekChar | parser.go:284-296 | returns the next character and leaves it to be read again |
| SgfParser.SGFParser.UnreadChar | parser.go:299-301 | after a read, the character read comes back first; with a character already pushed back, nothing changes |
| SgfParser.SGFParser.SkipWhitespace | parser.go:304-316 | leaves exactly SkipWs of the remaining input |
| SgfParser.SGFParser.ParsePropertyValue | parser.go:236-266 | returns PropValue of the remaining input and consumes what it consumed |
| SgfParser.SGFParser.ParseProperty | parser.go:192-233 | returns Property of the remaining input and consumes what it consumed |
| SgfParser.SGFParser.ParseNode | parser.go:159-189 | returns NodeSpec of the remaining input and consumes what it consumed |
| SgfParser.SGFParser.SkipVariationChars | parser.go:136-149 | succeeds exactly when SkipVariation at depth 1 does, and leaves what it leaves |
| SgfParser.SGFParser.ParseGame | parser.go:96-156 | returns GameSpec of the remaining input and consumes what it consumed |
| SgfParser.SGFParser.ParseGameTree | parser.go:67-93 | returns Trees of the whole remaining input |
| SgfProperties.EscapedBody | parser.go:236-266 | an escaped string followed by ']' reads back as that string |
| SgfProperties.ValueRoundTrip | parser.go:236-266 | any string, escaped and bracketed, is read back exactly, with the input after ']' left |
| SgfProperties.EscapedBracketValue | parser.go:248-257 | `[a\]b]` reads as `a]b` |
| SgfProperties.UnterminatedValue | parser.go:246-250 | a value with no ']' before the input ends is an end-of-input error |
| SgfProperties.NameShape | parser.go:194-212 | a name is one or two letters from the front; reading stops after the second letter or before a non-letter |
| SgfProperties.NodeKeysAreNames | parser.go:165-186 | every key stored in a node is a name of one or two letters |
| SgfProperties.RepeatedNameReplaces | parser.go:181-183 | a repeated name in one node keeps only the values read last |
| SgfProperties.SkipVariationConsumesClosing | parser.go:136-149 | the skip consumes exactly a prefix that closes the open parentheses |
| SgfProperties.SkipVariationLeavesAfterClosing | parser.go:136-149 | whatever the skip leaves follows a prefix that closes the open parentheses and no shorter one |
| SgfProperties.BracketsNotSpecialInVariation | parser.go:139-148 | a ')' inside a bracketed value still closes a skipped variation |
| SgfProperties.LinkAllAfterRoot | parser.go:125-133 | once the root has properties, each later node becomes the child of the previous one |
| SgfProperties.LinkAllFromFirstNonEmpty | parser.go:125-133 | nodes without properties before the first node with properties are replaced; the chain starts at that node |
| SgfProperties.WalkChain | parser.go:125-133 | following first children from the root visits exactly the nodes read, in order |
| SgfProperties.ChainIsLinear | parser.go:125-133 | every node of a parsed game has at most one child |
| SgfProperties.GameSpecExtend | parser.go:96-156 | a complete game tree parses the same whatever input follows it |
| SgfProperties.TreesAfterGame | parser.go:67-93 | after a complete game tree, reading continues with the text that follows it |
| SgfProperties.GamesInEncounterOrder | parser.go:67-93 | game trees written one after another give one root each, in order |
| SgfProperties.TwoGames | parser.go:67-93 | two concatenated game trees give two roots in encounter order |
| Sgf.ParseSGF | parser.go:44-64 | returns SgfResult: a parse error, "empty SGF file", or the converted match |
| Sgf.TreesKeepEarlier | parser.go:67-93 | games already read are never dropped |
| Sgf.EmptyExactly | parser.go:44-64 | the input is refused as empty exactly when its first non-blank character is not '(' or there is none |
| Sgf.BlankInputIsEmpty | parser.go:53-55 | an input of blanks only is refused as empty |
| Sgf.CompleteTreesMatch | parser.go:44-64 | complete game trees give a match with one game per tree, each converted on its own, in order |
| Types.PairCount | types.go:214-235 | the number of pairs before the first -1 in a from-slot, at most four |
| Types.FormatMove | types.go:208-237 | returns MoveText: "no move" for an empty move, else the pairs joined with spaces |
| Types.JoinedHasSlash | types.go:214-235 | the text of one or more pairs contains a '/' |
| Types.NoMoveExactly | types.go:208-213 | the text is "no move" exactly when the first slot is -1 |
| Types.RuneString | types.go:246 | always one character; a code point below U+D800 gives that character |
| Types.PointToStringKinds | types.go:239-248 | 24 is "bar", 25 is "off", any other point one character, and 0..23 the letters a..x |
| Types.PlayerOneBarAndOff | types.go:226-233 | side 1 mirrors the bar and off points like any other (the mirror of 24 is not "bar") |
| Types.SimpleMoveText | parser_test.go:229-258 | the pair (5,3) for side 0 renders as `f/d` |
| EncodedMoves.DecodePoint | converter.go:365-376 | letters a..z give 0..25 and every other character -1 |
| EncodedMoves.DecodePointInjective | converter.go:365-376 | two letters that decode to the same point are the same letter |
| EncodedMoves.DecodeInvertsPointToString | converter.go:365-376 | decoding inverts pointToString on the board points 0..23 |
| EncodedMoves.EncodedPairs | converter.go:346-358 | the number of complete letter pairs, at most four |
| EncodedMoves.FillMove | converter.go:344-362 | the loop fills the slots of EncodedMove |
| EncodedMoves.ParseEncodedMove | converter.go:344-362 | the record gets the decoded move and its FormatMove text for its own side; nothing else changes |
| EncodedMoves.ParseEncodedMoveOption | converter.go:496-512 | the option gets the decoded move and its side-0 text; nothing else changes |
| EncodedMoves.RenderThenDecode | converter.go:344-362 | deleting '/' and ' ' from a rendered side-0 move over board points and decoding gives back its pairs and the -1 after them |
| EncodedMoves.NoMoveDoesNotRoundTrip | converter.go:344-362 | the text "no move" does not decode back: its letters read as a move from point 13 |
| Analysis.RowOptions | converter.go:455-491 | a row gives one option exactly when it has at least ten fields |
| Analysis.ParseOptionRow | converter.go:460-489 | an option row is read into OptionOf |
| Analysis.CollectOptions | converter.go:453-491 | the loop over the rows collects exactly Options |
| Analysis.ReadRow | converter.go:455-490 | one row gives RowOptions |
| Analysis.ParseMoveAnalysis | converter.go:432-493 | the record gets MoveAnalysisOf the node's A values |
| Analysis.OptionsAgree | converter.go:468-486 | every option carries the analysis depth, and player 2's win rate is one minus player 1's |
| Analysis.LongRowsAllKept | converter.go:455-490 | when every row has ten fields, there is one option per row |
| Analysis.LongRowOption | converter.go:455-490 | option i then comes from row i |
| Analysis.ShortRowsSkipped | converter.go:455-458 | rows with fewer than ten fields give no option |
| Analysis.OptionLayout | converter.go:478-486 | which field feeds which rate and equity |
| Analysis.AnalysisPresent | converter.go:432-493 | with A values, only the analysis changes, and it is set |
| Analysis.NoCubeRowNoAnalysis | converter.go:517-530 | without DA or with fewer than 13 fields, the record is unchanged |
| Analysis.CubeRowLayout | converter.go:523-573 | the fields the cube rates come from, and the best action for double, take and drop records |
| Analysis.LuckOf | converter.go:578-593 | only the luck changes; it is set from the first two fields of LU when there are two |
| Analysis.SkillOf | converter.go:597-612 | only the skill changes; it is set from the first two fields of SK when there are two |
| Converter.TrimBrackets | converter.go:132 | the result neither starts nor ends with a bracket |
| Converter.DieValue | converter.go:306-308 | a digit gives its value, anything else 0 |
| Converter.CubeOwnerCode | converter.go:254-261 | "c" gives -1, "b" gives 1, anything else 0 |
| Converter.NodeRecords | converter.go:221-285 | a node gives at most three records |
| Converter.GamesFrom | converter.go:19-26 | one game per root |
| Converter.OtherNodeRecords | converter.go:238-279 | a node with no move and no set-up gives its cube records |
| Converter.MatchInfo | converter.go:129-160 | the `][`-separated parts applied in order; FourKeyMatchInfo states what the documented four-key form sets, MatchInfoTouchesOnly what any text may change |
| Converter.Rules | converter.go:164-191 | a variation is always set ("Standard" when none is named) |
| Converter.ResultOf | converter.go:195-218 | only the winner, points and resigned flag change, and a resigned flag already set stays set |
| Converter.MoveRecordOf | converter.go:289-339 | the played record, then the analysis stages; stated by PlayedKinds, PlayedRoundTrip and StagesKeepPlayed |
| Converter.GameOf | converter.go:32-59 | the root's metadata, then the records of the first-child path; stated by ExtractKeepsMoves, GameOfText and RootDefaults |
| Converter.MatchOf | converter.go:10-29 | refused exactly when there are no roots; otherwise one game per root |
| Converter.MatchConverter.constructor | converter.go:15-17 | starts from empty metadata and a new game |
| Converter.MatchConverter.ParseMatchInfo | converter.go:129-160 | the metadata and game become MatchInfo of the old ones |
| Converter.MatchConverter.ParseRules | converter.go:164-191 | the game becomes Rules of the old game; the metadata is unchanged |
| Converter.MatchConverter.ApplyRule | converter.go:170-189 | one rule token sets its flag or variation |
| Converter.MatchConverter.ParseResult | converter.go:195-218 | the game becomes ResultOf of the old game; the metadata is unchanged |
| Converter.MatchConverter.ResultApplied | converter.go:195-218 | the sequential updates of parseResult give ResultOf |
| Converter.MatchConverter.ExtractMetadata | converter.go:62-125 | the metadata and game become ExtractOf of the old ones |
| Converter.MatchConverter.ProcessMove | converter.go:289-339 | exactly one record, MoveRecordOf, is appended |
| Converter.MatchConverter.PlayedMove | converter.go:289-327 | the record before analysis is PlayedRecord |
| Converter.MatchConverter.Annotate | converter.go:329-338 | the analysis stages give Annotated |
| Converter.MatchConverter.ProcessSetBoard | converter.go:379-426 | exactly the SetBoard record is appended |
| Converter.MatchConverter.ProcessNode | converter.go:221-285 | exactly NodeRecords of the node are appended; the metadata is unchanged |
| Converter.MatchConverter.ProcessCubeProperties | converter.go:238-279 | exactly the CV, CP and DI records are appended |
| Converter.MatchConverter.AddSetCube | converter.go:239-246 | the CV record is appended when CV is present |
| Converter.MatchConverter.AddCubePosition | converter.go:249-263 | the CP record is appended when CP is non-empty |
| Converter.MatchConverter.AddDice | converter.go:266-279 | the DI record is appended when DI has two characters |
| Converter.MatchConverter.ConvertGame | converter.go:32-59 | the game and metadata are GameOf the root |
| Converter.CountCheckers | converter.go:386-407 | the per-point counts are Tally of the values |
| Converter.ConvertNodesToMatch | converter.go:10-29 | returns MatchOf the roots |
| ConverterProperties.MatchInfoPartTouchesOnly | converter.go:131-158 | one MI part changes only the match length, game number and score |
| ConverterProperties.MatchInfoTouchesOnly | converter.go:129-160 | MI changes only the match length, game number and score |
| ConverterProperties.MatchInfoGameIndependent | converter.go:129-160 | the game fields MI sets do not depend on the metadata |
| ConverterProperties.SingleKeyValue | converter.go:132-139 | a one-part MI `key:d` splits into the key and the digit |
| ConverterProperties.MatchLengthValue | converter.go:129-145 | an MI text that is the single part `length:7` sets the match length to 7 and nothing else |
| ConverterProperties.KeyDigitPart | converter.go:132-157 | a part `key:d` with one digit sets the match length, the game number, the first or the second score for `length`, `game`, `ws`, `bs`, and changes nothing for any other key |
| ConverterProperties.BracketedPart | converter.go:132 | a leading `[` or a trailing `]` on a part is trimmed away before the key is read |
| ConverterProperties.SplitAtFirst | converter.go:130 | splitting at `][` cuts at the first occurrence, so a first part without `]` comes out whole |
| ConverterProperties.SplitWithoutOpen | converter.go:130 | a text without `[` is one part |
| ConverterProperties.FourPartSplit | converter.go:130 | `[length:a][game:b][ws:c][bs:d]` splits into `[length:a`, `game:b`, `ws:c` and `bs:d]` |
| ConverterProperties.FourParts | converter.go:131-159 | four parts are applied one after the other, each to the result of the one before |
| ConverterProperties.LengthPart | converter.go:132-145 | the part `[length:a` sets the match length to a |
| ConverterProperties.GamePart | converter.go:133-149 | the part `game:b` sets the game number to b |
| ConverterProperties.WhiteScorePart | converter.go:133-153 | the part `ws:c` sets the first score to c |
| ConverterProperties.BlackScorePart | converter.go:132-157 | the part `bs:d]` sets the second score to d |
| ConverterProperties.FourKeyMatchInfo | converter.go:127-160 | for any digits a, b, c, d, `[length:a][game:b][ws:c][bs:d]` sets the match length to a, the game number to b and the score to (c, d), and changes nothing else |
| ConverterProperties.MatchInfoTestCases | parser_test.go:69-105 | `[length:7][game:1][ws:0][bs:0]` gives match length 7 and game 1; `[length:0][game:1][ws:0][bs:0]` gives 0 and 1 |
| ConverterProperties.MatchInfoFirstValueOnly | converter.go:62-125 | with MI as four values, only the first (`length:7`) is read: the game number and score stay |
| ConverterProperties.RuleTokensMeaning | converter.go:164-191 | the rule loop sets each flag exactly when its token occurs; the variation is the last one named |
| ConverterProperties.RulesTouchOnly | converter.go:164-191 | RU changes only the Crawford, Jacoby and cube flags and the variation |
| ConverterProperties.RulesVariation | converter.go:177-190 | the variation is the last one named, or "Standard" when none is |
| ConverterProperties.RulesCrawford | converter.go:166-170 | the Crawford flag is set exactly when a `Crawford` token occurs |
| ConverterProperties.ResultTouchesOnly | converter.go:195-218 | RE changes only the winner, points and resigned flag |
| ConverterProperties.ResultOneDigit | converter.go:207-217 | `X+dR?` gives d points, and resigned exactly when the R is present |
| ConverterProperties.ResultWonPoints | parser_test.go:165-205 | `W+2` gives winner 0 and 2 points |
| ConverterProperties.ResultResigned | parser_test.go:165-205 | `B+1R` gives winner 1, 1 point, resigned |
| ConverterProperties.ExtractGameIndependent | converter.go:62-125 | the game fields the root sets do not depend on the metadata |
| ConverterProperties.ExtractKeepsMoves | converter.go:62-125 | reading the root's metadata adds no move |
| ConverterProperties.RootDefaults | converter.go:32-59 | without RE and RU, a game has winner 0, 0 points, no variation and the cube enabled |
| ConverterProperties.RootCvBothSets | converter.go:32-59 | CV at the root sets the auto-doubles and also adds a SetCube record |
| ConverterProperties.StagesKeepPlayed | converter.go:329-338 | the analysis stages change only the analysis, cube analysis, luck and skill |
| ConverterProperties.PlayedKinds | converter.go:289-327 | the kind follows the move text; a normal move takes dice from its first two characters and the move from the rest |
| ConverterProperties.MoveNodeOneRecord | converter.go:226-231 | a move node gives one record; B wins over W |
| ConverterProperties.PlayedRoundTrip | converter.go:289-327 | two dice digits and the letters of a rendered move give back those dice and that move |
| ConverterProperties.SetupNodeOneRecord | converter.go:379-426 | a set-up node gives one SetBoard record whose board comes from AW and AB and whose side on roll comes from PL |
| ConverterProperties.SetupRecordsCarryNoAnalysis | converter.go:266-279 | records other than moves carry no analysis, so DI's record never gets LU's luck |
| ConverterProperties.CubeRecordOrder | converter.go:238-279 | the cube records come in the order CV, CP, DI, at most one of each |
| ConverterProperties.TallyAddsOne | converter.go:386-407 | one more value adds one checker to its point |
| ConverterProperties.TallyIgnores | converter.go:386-407 | a value that is not a point is ignored |
| ConverterProperties.TallyOrderFree | converter.go:386-407 | the counts do not depend on the order of the values |
| ConverterProperties.GameOfIndependent | converter.go:32-59 | a game does not depend on the metadata of earlier games |
| ConverterProperties.GamesAreTheRoots | converter.go:19-26 | the games are the roots converted one by one, in order |
| ConverterProperties.MatchShape | converter.go:10-29 | refused ("no games found") exactly when there are no roots; otherwise one game per root |
| ConverterProperties.TextFieldValue | converter.go:64-102 | a text property that is present replaces its metadata field; an absent one keeps it |
| ConverterProperties.GameOfText | converter.go:64-102 | the same, through convertGame |
| ConverterProperties.MetadataFromLastRoot | converter.go:10-29 | each text field of the match is the value from the last root that sets it |
| MatText.DiceAndMove | matparser.go:73 | a dice-and-move column starts with two digits |
| MatText.FirstGap | matparser.go:333-334 | the first place where three blanks start |
| MatText.SplitMoveLine | matparser.go:328-346 | there are always two columns |
| MatText.ScoreLine | matparser.go:52 | a matched score line gives two names that are non-empty and start with a non-blank |
| MatText.MoveLine | matparser.go:55 | the content after `N)` is one line and never starts with a blank |
| MatText.MatMove | matparser.go:350-383 | every slot is a point -1..24, and the move is empty (all -1) exactly when its first slot is -1 |
| MatText.ParseMatPoint | matparser.go:387-412 | the result is -2 (invalid), -1 (off), 0..23 or 24 (bar) |
| MatText.FieldPair | matparser.go:366-379 | one field gives at most one pair |
| MatText.LayoutFirstFour | matparser.go:362-364 | pairs after the fourth are ignored |
| MatText.AddField | matparser.go:366-379 | one turn of the field loop adds the field's pair to the layout |
| MatText.FieldPoints | matparser.go:367-373 | whether the field splits into two halves on '/', and the points of the halves; together they give the field's pair |
| MatText.PlacePair | matparser.go:375-379 | a usable pair fills the next two slots; otherwise the layout and slot count are unchanged |
| MatText.ParseMatMove | matparser.go:350-383 | returns MatMove of the text |
| MatText.FillPairs | matparser.go:358-380 | the field loop lays out the pairs of the fields |
| MatParser.MetadataComment | matparser.go:135-150 | a comment never changes the player names or the match length |
| MatParser.NewMatGame | matparser.go:197-215 | a new game has no moves and no winner, never both the Crawford and Jacoby rules, and is a Crawford game only under the Crawford rule |
| MatParser.Column | matparser.go:259-318 | one column appends at most one record, always the column's player's |
| MatParser.Row | matparser.go:252-319 | a row keeps the earlier records and appends records of columns i.. in column order |
| MatParser.MoveSectionLine | matparser.go:222-320 | a line keeps the earlier records; only a move line appends any, in column order |
| MatParser.GamesFrom | matparser.go:113-131 | a game loop that succeeds keeps the earlier games and returns at least one |
| MatParser.MatResult | matparser.go:82-132 | a file that reads without error holds at least one game |
| MatParser.Moves | matparser.go:222-321 | the move section never moves backwards |
| MatParser.HeaderFrom | matparser.go:156-169 | a game number other than 0 means a header line was consumed |
| MatParser.GameAt | matparser.go:153-324 | a game read consumes at least its header and score line |
| MatParser.ScoredGame | matparser.go:171-324 | the move section never moves backwards |
| MatParser.Preamble | matparser.go:88-107 | the match length found is stored in the metadata, or no header was found before the end |
| MatParser.PreambleStep | matparser.go:94-106 | a comment line updates the metadata, a header line ends the preamble, any other line is skipped |
| MatParser.HeaderStep | matparser.go:156-165 | the header search stops at the first `Game N` line |
| MatParser.GamesFromStep | matparser.go:114-129 | the end of the games, a bad score line and a game read each do what parse does with them |
| MatParser.MATParser.constructor | matparser.go:20-24 | a new reader starts at the first line |
| MatParser.MATParser.Scan | matparser.go:90-92 | returns the next line, and fails exactly at the end |
| MatParser.MATParser.ReadPreamble | matparser.go:88-107 | the metadata, length and position are Preamble's |
| MatParser.MATParser.FindGameHeader | matparser.go:156-165 | the game number and position are HeaderFrom's |
| MatParser.MATParser.PlayColumn | matparser.go:259-318 | one column gives Column, whose cases ColumnDouble, ColumnTake, ColumnDrop, ColumnMove and ColumnIgnored state |
| MatParser.MATParser.PlayRow | matparser.go:252-319 | the columns of a line give Row: column 0 for player 0, then column 1 for player 1 unless column 0 was a drop (RowTwoColumns, DropEndsRow) |
| MatParser.MATParser.PlayLine | matparser.go:222-320 | one line gives MoveSectionLine: a Wins line credits the last actor (WinsCreditsLastActor), a header or Wins line ends the game, a move line plays its row |
| MatParser.MATParser.PlayMoves | matparser.go:217-321 | the move section gives Moves |
| MatParser.MATParser.ParseGame | matparser.go:153-324 | one game gives GameAt |
| MatParser.MATParser.StartGame | matparser.go:171-324 | a score line and the moves give ScoredGame |
| MatParser.MATParser.Parse | matparser.go:82-132 | the file gives MatResult |
| MatParser.MATParser.ReadGames | matparser.go:113-131 | the game loop gives GamesFrom |
| MatParser.MATParser.NextGame | matparser.go:114-125 | one turn of the game loop moves forward or ends as GamesFrom does |
| MatProperties.ValueBound | matparser.go:401 | a digit string of length n is below 10 to the n |
| MatProperties.ScanValue | matparser.go:401 | the digit scan reads a digit string as its decimal value |
| MatProperties.TwoDigits | matparser.go:401 | the decimal value of one and two digits |
| MatProperties.AtoiDigits | matparser.go:401 | Atoi of a digit string within 64 bits is its decimal value |
| MatProperties.PadDigits | matparser.go:140 | zero-padding a digit string's value to its own width gives the string back |
| MatProperties.PointNumber | matparser.go:401-409 | a number 1..24 gives that number minus one |
| MatProperties.PointOutOfRange | matparser.go:401-411 | any other number is invalid (-2) |
| MatProperties.PointStar | matparser.go:389 | a trailing hit marker is ignored |
| MatProperties.PointBar | matparser.go:392-395 | "bar" in any case gives 24 |
| MatProperties.PointOff | matparser.go:396-398 | "off" in any case gives -1 |
| MatProperties.PointWord | matparser.go:401-404 | a word that is not a number, "bar" or "off" is invalid (-2) |
| MatProperties.PointOneExample | matparser_test.go:217-240 | "1" gives 0 |
| MatProperties.PointTwentyFourExample | matparser_test.go:217-240 | "24" gives 23 |
| MatProperties.PointBarExamples | matparser_test.go:217-240 | "bar" and "Bar" give 24 |
| MatProperties.PointOffExamples | matparser_test.go:217-240 | "off" and "Off" give -1 |
| MatProperties.PointHitExample | matparser_test.go:217-240 | "13*" gives 12 |
| MatProperties.PointWordExample | matparser_test.go:217-240 | "invalid" gives -2 |
| MatText.PairsInRange | matparser.go:372-379 | every pair kept has a from-point 0..24 and a to-point -1..24 |
| MatProperties.LayoutPacked | matparser.go:375-379 | laid-out pairs fill the slots from the front, with -1 after them |
| MatProperties.MatMoveShape | matparser.go:350-383 | every parsed move is packed: points in range, no pair after a -1 |
| MatProperties.FieldsOne | matparser.go:358 | a single word is one field |
| MatProperties.FieldsTwo | matparser.go:358 | two words separated by a space are two fields |
| MatProperties.SplitSlash | matparser.go:367 | splitting `x/y` on '/' gives x and y |
| MatProperties.FieldPairOf | matparser.go:367-379 | the pair of a field `x/y` |
| MatProperties.NotCannotMove | matparser.go:353 | a move written in point notation is not a "can't move" |
| MatProperties.OnePairMove | matparser.go:350-383 | `x/y` gives the pair (x, y) and -1 in every other slot |
| MatProperties.TwoPairMove | matparser.go:350-383 | `x1/y1 x2/y2` gives both pairs in order, then -1 |
| MatProperties.RefusedMove | matparser.go:353-355 | an empty move or one containing "can't move" in any case gives all -1 |
| MatProperties.MoveEmptyExample | matparser_test.go:180-206 | the empty move text gives all -1 |
| MatProperties.SplitJoin | matparser.go:328-346 | two trimmed columns separated by three or more blanks split back into those columns |
| MatProperties.SplitAlone | matparser.go:340-343 | a line without such a gap is one column, trimmed, and an empty second one |
| MatProperties.DateRoundTrip | matparser.go:136-140 | the date digits come back as `year-month-day` |
| MatProperties.CommentDate | matparser.go:136-140 | a comment with an event date sets only the date |
| MatProperties.CommentTouchesOne | matparser.go:135-150 | a comment changes at most one metadata field |
| MatProperties.NewGameFlags | matparser.go:197-215 | the Crawford rule exactly for a match, Jacoby exactly for money play, and a Crawford game exactly when the match length is positive and one side is one point from winning while the other is not |
| MatProperties.ColumnDouble | matparser.go:262-272 | a `Doubles => n` column appends a Double record by the column's player with cube value n, makes that player current and does not end the row |
| MatProperties.ColumnTake | matparser.go:274-283 | a `Takes` column appends a Take record by the column's player, who becomes current |
| MatProperties.ColumnDrop | matparser.go:285-295 | a `Drops` column appends a Drop record, makes the other player the winner and current, and ends the row |
| MatProperties.ColumnMove | matparser.go:297-318 | a dice-and-move column appends a Normal record with the column's player, the two dice, the trimmed move text and its parsed move (none for an empty text) |
| MatProperties.ColumnIgnored | matparser.go:254-318 | any other column changes nothing |
| MatProperties.RowTwoColumns | matparser.go:254-319 | with two filled columns and no drop in the first, column 0 is played for player 0, then column 1 for player 1 |
| MatProperties.ColumnActor | matparser.go:259-318 | after each column the current player is the actor of the last record: its player, or the other side after a drop |
| MatProperties.RowActor | matparser.go:254-319 | the same after a row |
| MatProperties.LineActor | matparser.go:222-320 | the same after a line |
| MatProperties.MovesActor | matparser.go:222-321 | the same after the move section |
| MatProperties.NewGameActor | matparser.go:217-218 | a game starts with no record and player 1 current |
| MatProperties.WinsCreditsLastActor | matparser.go:226-232 | a Wins line ends the game and sets only its points and its winner, the last actor (player 1 when no record was read) |
| MatProperties.LoneColumnIsPlayerZero | matparser.go:247-259 | a move line without a three-blank gap is read as column 0: every record it appends is player 0's, even when the text stood in the right column |
| MatProperties.NoHeaderFrom | matparser.go:156-169 | with no game header from a line on, the header search reads to the end and finds game number 0 |
| MatProperties.ZeroLengthDropsNextLine | matparser.go:109-129 | after a `0 point match` header one more line is read and dropped: a `Game 1` header there is lost, and with no later header the file is refused for having no games |
| MatProperties.DropIsNotDoubleOrTake | matparser.go:262-295 | a drop column is neither a double nor a take |
| MatProperties.AddRecordKeeps | matparser.go:269-316 | appending a record keeps the game header and keeps the earlier moves |
| MatProperties.ColumnKeeps | matparser.go:254-318 | one column keeps the game header, keeps earlier moves, and leaves the player and winner in range |
| MatProperties.ColumnKeepsDice | matparser.go:298-318 | the same for a played move |
| MatProperties.ColumnStops | matparser.go:285-295 | only a drop ends the row, and it credits the other player |
| MatProperties.RowKeeps | matparser.go:254-319 | a row keeps the game header and earlier moves |
| MatProperties.DropEndsRow | matparser.go:285-295 | a drop in the first column ends the row: the second column is not read and side 1 wins |
| MatProperties.LineKeeps | matparser.go:222-320 | one line keeps the game header and earlier moves |
| MatProperties.MovesKeep | matparser.go:217-321 | the move section keeps the game header and earlier moves, and leaves the winner -1, 0 or 1 |
| MatProperties.HeaderIsNotBlank | matparser.go:235-244 | a game header is not a blank line |
| MatProperties.HeaderIsNotWins | matparser.go:227-244 | a game header is not a Wins line |
| MatProperties.GameEndsAt | matparser.go:222-244 | the move section ends at the first Wins line or game header, and consumes that line |
| MatProperties.LineContinues | matparser.go:222-244 | any other line leaves the move section open |
| MatProperties.LineEnds | matparser.go:227-244 | a Wins line or a game header ends the move section |
| MatProperties.GameAtWellFormed | matparser.go:153-324 | a game read has a number of at least 1, the Standard variation, the cube enabled and the flags of the match length |
| MatProperties.ScoredGameWellFormed | matparser.go:171-324 | the same once the header is read |
| MatProperties.GamesFromOk | matparser.go:113-131 | a game loop that succeeds returns at least one game, keeps the earlier ones, and every game is well formed |
| MatProperties.ParsedMatch | matparser.go:82-132 | a file that reads without error holds at least one game, each with the flags of the match length in the metadata |
| MatProperties.PreambleWithoutHeader | matparser.go:88-107 | without a header line, the preamble reads to the end and finds no length |
| MatProperties.NoHeaderRefused | matparser.go:109-111 | a file without a match header line is refused as such |

## Left out

- Readers and files: `ParseSGFFile`, `ParseMATFile` and `ParseMAT` open a file or wrap a reader. The model takes the SGF input as a character sequence and the MAT input as a sequence of lines. `bufio.Scanner`'s 64 KB line limit is not modelled.
- Characters: text is a sequence of characters. Go indexes strings by byte, so the two agree on ASCII only. `ToLower` folds ASCII letters only.
- Floating point: `strconv.ParseFloat` is modelled by `Text.ParseNum`. It reads plain decimals exactly, as reals, and gives 0 for anything else, so exponents, `inf` and `nan` are not read. The float32 rounding of `parseFloat32` is not modelled, and `getPropertyFloat` is not part of this model.
- Errors: Go's `fmt.Errorf` messages are modelled as error kinds (`ParseError`, `SgfError`, `MatError`) carrying what the messages carry: the line number and the line.
- The MAT reader's `cubeValue` local is never read, so it is not modelled.
- `ToJSON`, `ParseTime` and the statistics types of types.go are not part of this model.
- MAT regular expressions: each expression the reader uses is written out as a function over the line, including the lazy name groups of the score line (`MatText.ScoreLine`). Go's RE2 engine itself is not modelled.
- MAT moves: the test cases of `parseMatMove` in matparser_test.go:180-206 are covered by general lemmas, not as literal strings, except the empty move (`MoveEmptyExample`, through `RefusedMove`). `6/5 8/5` and `24/18 23/18` are instances of `TwoPairMove`. `bar/23` is an instance of `OnePairMove` with `PointBar`. `6/off` is an instance of `OnePairMove` with `PointOff`. A literal move text makes the verifier evaluate the whole parser on it, which is too costly to prove.
- MAT columns: the test cases of `splitMoveLine` are covered by the general `SplitJoin` and `SplitAlone`.
