# Monopoly Banker: the transaction parser and the session it drives

Monopoly Banker is a one-page ledger for a board game. The banker types a
free-form line such as `z 100 g -200`, and the page moves player balances by
the amounts in it. This project models, in Dafny, the parts of the page that
decide and apply those changes:

- **Tokenizing** (`Text`, `Tokens`). The line is trimmed and split on runs of
  JavaScript whitespace. Each piece becomes one of three tokens:
  - a number, if it matches `-?\d+`;
  - a shortcode, if it is a single ASCII letter, lower-cased;
  - an inert token otherwise.
- **Pairing** (`Pairing`). The line is paired in two passes.
  - The adjacency pass scans left to right with a `used` mask. A shortcode
    held by a roster player takes the unused number just before it, or
    failing that the unused number just after it. It is marked used either
    way. Amounts for a repeated shortcode add up.
  - The nearest-match pass pairs each leftover number with the closest
    leftover roster shortcode. The first one wins a tie. Each claimed
    shortcode is removed from the leftovers.
  - A blank line is an error, and so is a line that yields no change.
- **The roster** (`Roster`):
  - players as name, shortcode and balance;
  - applying a change map to the balances, and undoing it;
  - the setup checks;
  - moving and deleting rows;
  - choosing a new player's shortcode.
- **The session** (`Session.Banker`). A class holds the roster, the last
  applied change and the history. Its methods are the page's operations:
  - start the game from the setup form;
  - move, delete or add a row;
  - apply a transaction line;
  - undo the last transaction.
- **The test script's parser** (`ParseTests`). `parseAndApply` parses and
  applies in one call. The outcome of each line of the script's test table
  is proved on the default roster.

Each imperative routine of the source is a method with its loop. It is
proved equal to an independent specification function, and the properties
the game relies on are lemmas about those functions. `ClaimOf` is one of
them: it describes the adjacency pass's choice at a position without any
mask. Others are:
- undo inverts apply;
- a move of a row is a permutation;
- the setup check reports the first failure;
- splitting inverts joining with single spaces;
- each test line has the outcome the table expects.

Where the code and its written design differ, the model follows the code:

- The adjacency pass marks every roster shortcode used, even one that finds
  no number. So the nearest-match pass never has a shortcode to offer, and it
  never changes the result. The nearest-match pass is modelled and verified
  as written. `Pairing.ParseByAdjacencyAlone` proves that it contributes
  nothing. For `100 200 g`, the 200 goes to `g` and the 100 is dropped.
- The blank-line error exists only in the page (`app.js`). In the test
  script, a blank line yields no tokens and so reports "no instructions".
- Undo skips an entry whose shortcode no player holds any more. When the
  roster is unchanged between an apply and its undo, undo restores every
  balance (`Roster.UndoRestores`, `Session.ApplyThenUndo`).
- Once all 26 letters are taken, a new player gets `p` followed by the new
  roster size. That code is two or more characters, so the setup check
  rejects it. It can also repeat a code already on the roster:
  `Roster.NewPlayerCode` states only what is chosen.

## Model

| member | source | states |
|---|---|---|
| Text.TrimEmptyIffBlank | app.js:154-155 | a line trims to the empty string exactly when every character is JavaScript whitespace, which is the condition of the blank-line error |
| Text.TrimEnds | app.js:154 | what survives `trim` neither starts nor ends with whitespace |
| Text.Words | app.js:158 | every piece of the split line is non-empty and free of whitespace, and a line that starts with a non-space character yields a first piece starting with that character |
| Text.WordsOfJoin | app.js:158 | splitting whitespace-free words joined by single spaces gives back exactly those words |
| Text.WordsOfTrim | test_parse.js:11 | trimming before splitting does not change the pieces |
| Text.NoWordsIffBlank | test_parse.js:11 | a line splits into no pieces exactly when it trims to the empty string |
| Text.DecimalRoundTrip | app.js:162 | reading back the decimal digits of a natural number gives that number |
| Tokens.Classify | app.js:161-165 | a piece is a number exactly when it matches `-?\d+`, a shortcode exactly when it is one ASCII letter (lower-cased), and otherwise an inert token that keeps its text |
| Tokens.ClassifyNumeral | app.js:162 | every integer, written with an optional minus sign and its digits, is read back as a number token of that value |
| Tokens.ClassifyLetter | app.js:163 | a letter of either case is the shortcode of its lower-case form |
| Tokens.Tokenize | app.js:158-165 | one token per piece of the split line, and every shortcode token is a lower-case letter `a`..`z` |
| Tokens.TokenizeTrim | test_parse.js:11-16 | trimming the line first does not change its tokens |
| Tokens.TokenizeEmptyIffBlank | test_parse.js:11-16 | a line has no tokens exactly when it is blank |
| Tokens.TokenizeJoin | app.js:158-165 | the tokens of words joined by single spaces are the words' classifications, one per word, in order |
| Pairing.ClaimOf | app.js:176-182 | a claim is made only by a roster shortcode, only of a number token, and only of an immediate neighbour |
| Pairing.ClaimMatchesScan | app.js:180-182 | the mask-free choice at a roster shortcode equals the scan's rule: the previous number if unused, else the next number if unused, else none |
| Pairing.ClaimUnique | app.js:180-182 | no number is claimed by two shortcodes |
| Pairing.UsedAtEnd | app.js:171-188 | after the pass every roster shortcode is used, a number is used exactly when a neighbouring shortcode claimed it, and a number with no roster shortcode beside it is unused |
| Pairing.Aggregate | app.js:184 | the change map has exactly the shortcodes of the pairs as keys |
| Pairing.AggregateSnoc | app.js:184 | one more pair adds its amount to its shortcode's running total |
| Pairing.AggregateSums | app.js:184 | each entry of the change map is the sum of all amounts paired with that shortcode, and a shortcode with no entry has no pairs |
| Pairing.AdjChangesKeysValid | app.js:167-176 | only shortcodes held by roster players receive a change |
| Pairing.AdjChangesEmptyIff | app.js:174-188 | the adjacency pass finds nothing exactly when no roster shortcode has a number token right next to it |
| Pairing.ScannedIsMask | app.js:180-186 | the mask built step by step is the closed-form mask: a position is used when it holds a scanned roster shortcode or a number a scanned shortcode claimed |
| Pairing.AdjacencyPass | app.js:171-188 | the scan's final `used` mask and change map are the closed-form mask and the sums of the `ClaimOf` pairs |
| Pairing.UnusedNums | app.js:194 | every leftover number is an unused number token, at its position and with its value |
| Pairing.UnusedCodes | app.js:194 | the leftover shortcodes are unused roster shortcodes at their positions, and there are none exactly when every roster shortcode is used |
| Pairing.CollectRemaining | app.js:192-194 | the leftovers are exactly the unused numbers and the unused roster shortcodes, each in token order |
| Pairing.NoCodesRemain | app.js:192-194 | after the adjacency pass no roster shortcode is left over |
| Pairing.NearestIn | app.js:198-202 | the scan picks some leftover shortcode exactly when there is one |
| Pairing.NearestIsFirstMinimum | app.js:198-202 | the chosen shortcode is at the smallest distance from the number, and every earlier one is strictly farther, so the first of the closest wins |
| Pairing.FindIdx | app.js:206 | `findIndex` gives the first leftover at the position, or -1 exactly when there is none |
| Pairing.Splice | app.js:206 | removing the found shortcode drops exactly that entry: the ones before it stay in place, the ones after it move up by one, nothing else is lost, and a missing one leaves the leftovers unchanged |
| Pairing.NearestFold | app.js:196-208 | the nearest-match pass keeps every shortcode the change map already had |
| Pairing.NearestFoldKeys | app.js:196-208 | the nearest-match pass only adds shortcodes that were left over |
| Pairing.NearestFoldNoCodes | app.js:196-208 | with no leftover shortcode the nearest-match pass leaves the change map as it was |
| Pairing.NearestCode | app.js:198-202 | the inner scan returns the first closest leftover shortcode |
| Pairing.NearestPass | app.js:196-208 | the pass equals pairing the leftover numbers in order, each with its nearest leftover shortcode, and that shortcode is then removed; with no leftover shortcode it changes nothing |
| Pairing.ParseResult | app.js:153-213 | a successful parse is a non-empty change map keyed by roster shortcodes |
| Pairing.ParseByAdjacencyAlone | app.js:153-213 | a blank line is the blank-line error, and otherwise the result is exactly the adjacency pass's change map, or the no-instructions error when that map is empty |
| Pairing.ParseResultCases | app.js:153-213 | the parser returns the blank-line error exactly for a blank line and the no-instructions error exactly when no roster shortcode has a neighbouring number. Otherwise it returns the adjacency pass's change map, non-empty and keyed by roster shortcodes |
| Pairing.ParseLine | app.js:153-213 | the trim, the two passes with their loops and the two error checks give exactly the parse whose outcomes `ParseResultCases` states |
| Roster.IndexOfCode | app.js:218 | the lookup finds the first player holding the shortcode, or -1 exactly when no player holds it |
| Roster.UniqueIndexOfCode | app.js:218 | on a roster with distinct shortcodes the lookup finds each player's own row |
| Roster.Adjusted | app.js:217-220 | applying a change map keeps the roster's length and every name and shortcode |
| Roster.Recorded | app.js:219 | the recorded changes are exactly the entries whose shortcode a player holds, with the same deltas |
| Roster.ApplyDeltas | app.js:217-220 | applying the entries one at a time, in any order, yields the adjusted roster and the recorded map |
| Roster.UndoRestores | app.js:287-290 | subtracting what apply recorded restores every player of the roster apply started from |
| Roster.AdjustedEffect | app.js:217-220 | with distinct shortcodes, exactly the players whose shortcode is a key move, each by that key's delta |
| Roster.RecordedAll | app.js:216-223 | when every key names a player, the whole change map is recorded |
| Roster.RemoveAtDrops | app.js:47 | deleting a row drops exactly that player: the rows before it stay in place, the rows after it move up by one, and no other player is lost |
| Roster.ValidateSetup | app.js:72-85 | the check passes exactly when all shortcodes are single characters without repeats and all names are present without case-insensitive repeats. Each error is reported exactly when its fault is the first one found, shortcodes before names |
| Roster.CodeFaultIsFirst | app.js:73-77 | the first faulty shortcode is the only position that is faulty after only good ones |
| Roster.NameFaultIsFirst | app.js:80-85 | the first faulty name is the only position that is faulty after only good ones |
| Roster.BuiltUnique | app.js:72-88 | a roster built from setup rows that pass the shortcode check has distinct single-character shortcodes |
| Roster.Moved | app.js:58-59 | the moved roster has the same length, the moved player at the target row, and only players of the old roster elsewhere |
| Roster.MovedIsPermutation | app.js:58-59 | moving a row is a permutation. The moved player lands at the target, the others keep their relative order, and a move onto itself changes nothing |
| Roster.NewPlayerCode | app.js:240-246 | the new shortcode is the first letter of the alphabet no player holds, or `p` and the new roster size when all 26 are taken |
| Session.Banker.constructor | app.js:4-14 | the session opens with the default roster, no last change and no history |
| Session.Banker.StartGame | app.js:65-88 | on a failed check the roster is kept. Otherwise it is rebuilt from the trimmed names and the trimmed, lower-cased shortcodes, and has distinct shortcodes |
| Session.Banker.MoveRow | app.js:54-61 | a move onto the same row changes nothing; otherwise the row goes to the target clamped to the roster |
| Session.Banker.DeleteRow | app.js:47 | `splice(idx, 1)` for every index. An index inside the roster removes that row, and a negative index removes the row that many places from the end. A negative index beyond the start removes the first row. An index past the end, or any index on an empty roster, removes nothing |
| Session.Banker.AddPlayer | app.js:238-250 | one nameless player with a balance of 1500 is appended. Its shortcode is the first letter `a`..`z` no player holds, or `p` and the new roster size when all 26 are taken |
| Session.Banker.Commit | app.js:216-223 | for a change map keyed by players' shortcodes, the balances move by the map, `lastChange` becomes the map and one history entry with the line and the map is appended |
| Session.Banker.ApplyTransaction | app.js:153-223 | on a parse error nothing changes. Otherwise the balances move by the change map, `lastChange` becomes the map and one history entry with the trimmed line is appended |
| Session.Banker.Undo | app.js:284-294 | with no history it fails and nothing changes. Otherwise the last entry is popped, its deltas are subtracted and the last change is cleared |
| Session.ApplyThenUndo | app.js:284-291 | applying a line and then undoing it restores the roster and the history |
| ParseTests.Outcome | test_parse.js:49-56 | an error comes exactly with an empty change map and leaves the roster alone. Otherwise the map is keyed by roster shortcodes and the roster keeps its length |
| ParseTests.ParseAndApply | test_parse.js:10-57 | the test script's parser reports an error with no change and no move exactly when the adjacency pass finds nothing. Otherwise it returns a non-empty map keyed by roster shortcodes and applies it |
| ParseTests.DefaultCodes | test_parse.js:2-8 | the default roster's shortcodes are g, m, z, t and s |
| ParseTests.DefaultBalances | test_parse.js:59 | after a line on the default roster each player has 1500 plus that player's change |
| ParseTests.TableWords | test_parse.js:12-16 | the words of the test table classify as the expected shortcodes and numbers |
| ParseTests.VectorCodeThenNumber | test_parse.js:62 | `g 100` gives g +100 and a balance of 1600 |
| ParseTests.VectorNumberThenCode | test_parse.js:63 | `100 g` gives g +100 and a balance of 1600 |
| ParseTests.VectorTwoPlayers | test_parse.js:64 | `z 100 g -200` gives z 1600 and g 1300 |
| ParseTests.VectorTwoNumbersBeforeCode | test_parse.js:65 | `100 200 g` is not an error. g takes the nearer 200, reaching 1700, and the 100 stays unused |
| ParseTests.VectorLoneCode | test_parse.js:66 | `m` is an error that moves no balance |
| ParseTests.VectorNumbersOnly | test_parse.js:67 | `100 200` is an error that moves no balance |
| ParseTests.VectorThreePlayers | test_parse.js:68 | `g 100 m 50 s -20` gives g 1600, m 1550 and s 1480 |
| ParseTests.VectorNumbersBetweenCodes | test_parse.js:69 | `g 100 200 m` gives g the 100 after it and m the 200 before it |
| ParseTests.VectorRepeatedCode | test_parse.js:28 | a repeated shortcode sums into one entry: `g 50 g 50` gives g +100 |

## Left out

- The page itself is not modelled:
  - rendering, event wiring and the setup form's inputs;
  - the history dialog and `showHistory`;
  - the wording of error messages;
  - clearing the input field;
  - `escapeHtml` and `renderBalances`.
  
  These only display state the model already holds.
- `resetGame` is not modelled. It clears the last change and shows the setup screen, and touches no roster or history state beyond that.
- Amounts and balances are unbounded integers. JavaScript numbers are doubles: very long digit strings lose precision there and do not here.
- Session.Banker.StartGame takes the balances as integers. `Number(value) || 0` turning a non-numeric field into 0 is the caller's concern here, because the form is not modelled.
- Roster.ValidateSetup and Roster.NormalCodes lower-case in ASCII only, for both the name check and the shortcodes. JavaScript's `toLowerCase` also folds non-ASCII letters, so `Ä` and `ä` are duplicate shortcodes in the page but distinct here. A letter such as `İ` lower-cases to two code points, so the page rejects it as not a single character, and the model does not.
- Lengths are counted in characters, not in UTF-16 code units.
- Session.Banker.MoveRow requires `from` to be an existing row. Its only callers, the move buttons, pass a row's own index. On any other index the source would insert `undefined`, which has no counterpart in a roster of players.
- Players are values in a sequence rather than shared objects. The source never aliases a player: history keeps a copy of the change map, not of players.
- `Object.entries` lists a change map's keys in insertion order. The model does not keep that order. Roster.ApplyDeltas takes the keys in any order and is proved to reach the same result for every order, since the keys are distinct.
- `splice` also clamps a start past the end to the roster's length. Session.Banker.DeleteRow does not model that clamp, because deleting one row from past the end removes nothing either way.
- The console runner of the test script (test_parse.js:72-86) is not modelled. Each table line's outcome is proved as a lemma instead, including line 69, whose table entry checks no balance.
