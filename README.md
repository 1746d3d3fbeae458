# Cipher Quest, modelled in Dafny

Cipher Quest is a browser escape-room game. The player decodes a run of puzzles. Each puzzle is one word-bank phrase enciphered by one of three classical ciphers:

- a Caesar shift;
- a repeating-keyword Vigenère cipher;
- a substitution of the 26 capitals by 26 fixed glyphs.

A game session keeps a queue of generated puzzles and a cursor into it. It also keeps an adaptive difficulty level from 1 to 5 and counters for solved, skipped and hinted puzzles. The score is computed when fifteen puzzles have gone by. The leaderboard keeps the ten best results in the browser's local storage. The cipher tools panel offers three aids:

- a letter-frequency table;
- a Caesar slider;
- a hand-built substitution table.

This project models that core and proves what it promises:

- the three ciphers and their puzzle generators (`Caesar`, `Vigenere`, `Symbol`, with shared `Puzzles` and `Text`);
- the game session as a class with the state the component keeps (`Game`);
- the leaderboard as a class over the stored value (`Storage`);
- the tool panel's functions (`CipherTools`).

JavaScript's `Array.prototype.sort` with a comparator is stable. It is modelled by a stable insertion sort in `Sorting`, whose output is fixed by its input in the same way. `[...new Set(xs)]` and `Object.entries` keep first-insertion order. They are modelled by `Seqs.Dedup`. `slice(0, n)` is modelled by `Seqs.Take`.

The inputs that are random or come from the clock are parameters of the model:

- every `Math.random()` draw becomes a "pick" index;
- the shuffled glyph palette becomes any permutation of `SYMBOLS` (`Symbol.IsShuffle`);
- a puzzle's draws are bundled in `Game.Draw`;
- the timer's seconds, `Date.now()` and `new Date().toISOString()` become arguments;
- the word bank is the session's `bank`.

React's state updates are modelled as follows. Each handler reads the state of the last render, the `View` snapshot it takes on entry. Functional updates (`setX(prev => …)`) act on the current fields. So `generateNextPuzzle` refills the queue at the rendered level, and the score is computed from the counters as they were rendered.

## Model

| member | source | states |
|---|---|---|
| Text.Upper | src/utils/caesarCipher.js:3-4 | `toUpperCase` keeps the length and maps each character to its upper case; no lower-case letter remains |
| Text.KeepLetters | src/utils/vigenereCipher.js:3 | `replace(/[^A-Z]/g, '')` yields only capitals and is never longer than its input; one character is kept exactly when it is a capital |
| Text.KeepLettersAppend | src/utils/vigenereCipher.js:3 | stripping works piece by piece: the capitals of `a + b` are those of `a` followed by those of `b`, so order is kept |
| Text.KeepLettersLength | src/utils/vigenereCipher.js:3 | exactly one character is kept per capital letter of the input |
| Text.NonSpaceLength | src/utils/caesarCipher.js:27 | the length without `\s` characters is at most the length, and equals it exactly when the word holds no `\s` character |
| Text.NonSpaceLengthOfBankText | src/utils/caesarCipher.js:27 | for word-bank text the length without whitespace is the length without spaces |
| Text.ShiftThenUnshift | src/utils/vigenereCipher.js:10-25 | moving an alphabet position forward by `y` (0..26) and back with the `+ 26` guard restores it |
| Text.UnshiftThenShift | src/utils/vigenereCipher.js:10-25 | moving an alphabet position back by `y` (0..26) with the `+ 26` guard and forward again restores it |
| Text.KeepLettersCount | src/components/CipherTools.jsx:22-26 | stripping non-capitals keeps each capital's number of occurrences |
| Text.KeepLettersOfBankText | src/utils/vigenereCipher.js:3 | on word-bank text (capitals and spaces) stripping non-letters is removing the spaces |
| Caesar.JsRem | src/utils/caesarCipher.js:8 | JavaScript's `%`: strictly between `-n` and `n`, differing from the dividend by a multiple of `n`, with the dividend's sign (never positive for a negative dividend); for non-negative dividends it is the mathematical remainder |
| Caesar.ShiftChar | src/utils/caesarCipher.js:6-11 | a capital moves `shift` places round the alphabet; any other character is kept |
| Caesar.Encode | src/utils/caesarCipher.js:2-13 | same length as the input; non-capitals of the upper-cased text kept in place; each capital advanced by `shift` mod 26 |
| Caesar.Decode | src/utils/caesarCipher.js:15-17 | same length; non-capitals of the upper-cased text kept; for shifts 0..26 each capital is moved back by the shift, so advancing the result by the shift gives the capital |
| Caesar.ComplementUndoesShift | src/utils/caesarCipher.js:15-17 | encoding with `26 - s` moves each capital `s` places back |
| Caesar.ShiftCharRoundTrip | src/utils/caesarCipher.js:15-17 | shifting a capital by `s` and then by `26 - s` restores it, for `0 <= s <= 26` |
| Caesar.DecodeEncode | src/utils/caesarCipher.js:15-17 | `caesarDecode(caesarEncode(t, s), s)` is `t` upper-cased, for every shift 0..26 |
| Caesar.EncodeWholeTurn | src/utils/caesarCipher.js:2-13 | shifts 0 and 26 only upper-case the text |
| Caesar.MinShift | src/utils/caesarCipher.js:21 | the smallest shift is at most 10, reaches 10 exactly from level 18, and is at least 1 |
| Caesar.MaxShift | src/utils/caesarCipher.js:22 | the largest shift is at most 25, reaches 25 exactly from level 7, and is at least 5 |
| Caesar.Words | src/utils/caesarCipher.js:26-34 | non-empty for a non-empty bank; only bank words; when some word has the level's length (at most 12 letters at levels ≤ 2, 8..18 at 3-4, at least 12 above) exactly those words, otherwise the whole bank |
| Caesar.ShiftRangeSound | src/utils/caesarCipher.js:21-23 | at every level ≥ 1 the shift range is non-empty and within 1..25 |
| Caesar.GeneratePuzzle | src/utils/caesarCipher.js:19-47 | the shift is in the level's range; the answer comes from the filtered words (or the whole bank); the cipher text is the answer encoded; it decodes to the upper-cased answer; the hint reveals the shift exactly at levels ≤ 2 |
| Vigenere.Normalize | src/utils/vigenereCipher.js:3 | the normal form is letters only |
| Vigenere.NormalizeLength | src/utils/vigenereCipher.js:3 | the normal form has one letter per capital of the upper-cased text, so `vigenereEncode` returns that many letters |
| Vigenere.NormalizeAppend | src/utils/vigenereCipher.js:3 | normalising works piece by piece, keeping the letters in order |
| Vigenere.KeyAt | src/utils/vigenereCipher.js:10 | the key letter at position `i` is `keyword[i mod length]`, an alphabet position 0..25 |
| Vigenere.Encode | src/utils/vigenereCipher.js:2-14 | one output letter per letter of the normal form; position `i` is advanced by the key letter at `i` mod 26 |
| Vigenere.Decode | src/utils/vigenereCipher.js:16-28 | one output letter per letter of the normal form; position `i` is moved back by the key letter at `i`, with the `+ 26` guard |
| Vigenere.ShiftThenUnshiftChar | src/utils/vigenereCipher.js:11-25 | a letter advanced by a key letter and moved back by it is restored |
| Vigenere.UnshiftThenShiftChar | src/utils/vigenereCipher.js:11-25 | a letter moved back by a key letter and advanced by it is restored |
| Vigenere.DecodeEncode | src/utils/vigenereCipher.js:2-28 | decoding an encoding gives the upper-case letters of the text |
| Vigenere.EncodeDecode | src/utils/vigenereCipher.js:2-28 | encoding a decoding gives the upper-case letters of the cipher text |
| Vigenere.DecodeStripsNonLetters | src/utils/vigenereCipher.js:17 | decoding ignores every non-letter of its input |
| Vigenere.NormalizeBankText | src/utils/vigenereCipher.js:3 | for word-bank text the normal form is the text without spaces |
| Vigenere.KeywordsValid | src/utils/vigenereCipher.js:31 | every keyword of the fixed list is non-empty and all capitals |
| Vigenere.GeneratePuzzle | src/utils/vigenereCipher.js:30-43 | keyword from the fixed list; answer drawn from the unfiltered bank; cipher text is the encoded answer; it decodes to the answer's letters; the hint names the keyword |
| Symbol.Symbols | src/utils/symbolCipher.js:2-5 | `SYMBOLS` holds 26 distinct glyphs, none a capital letter or a space |
| Symbol.GlyphsDistinct | src/utils/symbolCipher.js:2-5 | the 26 glyphs are pairwise different and none is a capital or a space |
| Symbol.ShuffleFacts | src/utils/symbolCipher.js:8 | any shuffle of the palette has 26 distinct glyphs |
| Symbol.FilledStep | src/utils/symbolCipher.js:12-17 | one turn of the filling loop pairs letter `i` with glyph `i` in both maps and keeps earlier pairs |
| Symbol.FilledIsBijection | src/utils/symbolCipher.js:12-19 | once all 26 letters are paired, `mapping` is a bijection from the capitals onto the palette and `reverseMapping` is its inverse |
| Symbol.GenerateMapping | src/utils/symbolCipher.js:7-20 | letter `i` maps to the `i`-th shuffled glyph; the two maps are mutually inverse bijections between the capitals and the palette |
| Symbol.Encode | src/utils/symbolCipher.js:22-33 | same length; each capital of the upper-cased text replaced by its glyph, or kept when the mapping has none; every other character kept |
| Symbol.Decode | src/utils/symbolCipher.js:35-40 | same length; each character with a reverse entry replaced by it; others kept |
| Symbol.DecodeEncode | src/utils/symbolCipher.js:22-40 | with a generated bijection, decoding an encoding gives the upper-cased text when the text holds no glyph |
| Symbol.BankTextHasNoGlyph | src/utils/symbolCipher.js:2-5 | word-bank text contains no palette glyph |
| Symbol.Words | src/utils/symbolCipher.js:46-54 | non-empty for a non-empty bank; only bank words; when some word has the level's length (at most 10 letters at levels ≤ 2, 8..16 at 3-4, at least 12 above) exactly those words, otherwise the whole bank |
| Symbol.HintFor | src/utils/symbolCipher.js:62-66 | basic hint at levels ≤ 2, pattern hint at 3, advanced hint above |
| Symbol.GeneratePuzzle | src/utils/symbolCipher.js:42-70 | a bijective mapping from the shuffle; answer from the level's words (or the whole bank); cipher text is the answer encoded; the hint tier is fixed by the level |
| Puzzles.TypeName | src/utils/symbolCipher.js:58 | a puzzle's `type` is one of "caesar", "vigenere", "symbol" |
| Puzzles.Decimal | src/utils/caesarCipher.js:43 | a number is printed as a non-empty string of decimal digits, without a leading zero |
| Puzzles.DecimalValue | src/utils/caesarCipher.js:43 | the printed digits denote the number |
| Puzzles.HintText | src/utils/caesarCipher.js:42-44 | the shift hint begins with its fixed sentence followed by the shift's digits; the Vigenère hint begins with its fixed sentence followed by the keyword |
| Puzzles.ShiftHintText | src/utils/caesarCipher.js:43 | the shift hint's fixed sentence is followed by the shift's digits |
| Puzzles.KeywordHintText | src/utils/vigenereCipher.js:39 | the keyword hint's fixed sentence is followed by the keyword |
| Puzzles.Filter | src/utils/caesarCipher.js:26-31 | a word is kept exactly when it is in the bank and passes the length test; nothing is kept when no word passes |
| Puzzles.Pool | src/utils/caesarCipher.js:33-34 | the pool a word is drawn from is non-empty for a non-empty bank and holds only bank words |
| Puzzles.PoolChoice | src/utils/symbolCipher.js:53 | the pool is exactly the passing words when one passes, and the whole bank when none does |
| Seqs.Dedup | src/components/CipherTools.jsx:66 | `[...new Set(s)]`: no repeats; the same members as `s`; ordered by first occurrence in `s` |
| Seqs.DedupSnoc | src/components/CipherTools.jsx:24-25 | adding an element to a set-ordered list appends it when new and changes nothing otherwise |
| Seqs.Take | src/utils/storage.js:36 | `slice(0, n)` is the prefix of length `min(n, length)` |
| Seqs.PermutationKeepsDistinct | src/utils/symbolCipher.js:8 | a permutation of a repeat-free list is repeat-free |
| Sorting.Sort | src/utils/storage.js:28-33 | the sorted list is a permutation of the input |
| Sorting.SortSorted | src/utils/storage.js:28-33 | with a strict-order comparator the result is sorted |
| Sorting.SortOfSorted | src/utils/storage.js:28-33 | sorting a sorted list changes nothing (stability) |
| Sorting.SortAppend | src/utils/storage.js:25-33 | sorting a sorted list with one element pushed is inserting that element after its equals |
| Sorting.InsertAt | src/utils/storage.js:28-33 | the inserted element lands at its rank with every other element in its old order |
| Sorting.InsertSorted | src/utils/storage.js:28-33 | insertion keeps a list sorted |
| Game.GeneratePuzzle | src/components/Game.jsx:54-56 | the generator of the drawn cipher type produces the puzzle; its `type` is that cipher's name; it carries the requested level |
| Game.GeneratePuzzleBatch | src/components/Game.jsx:51-60 | exactly `batchSize` puzzles; the `i`-th comes from the `i`-th draw at the given level |
| Game.GeneratedBatchAppend | src/components/Game.jsx:53-58 | pushing the puzzle of the next draw keeps a batch in draw order |
| Game.GeneratedIsValid | src/components/Game.jsx:12-16 | every generator's puzzle is a bank answer enciphered under its own key, with the hint its level calls for |
| Game.BatchIsValid | src/components/Game.jsx:51-60 | a generated batch holds only valid puzzles at its level |
| Game.AllValidAppend | src/components/Game.jsx:88 | appending valid puzzles to a valid queue keeps it valid |
| Game.PuzzleDecodes | src/components/Game.jsx:166 | a valid puzzle decodes under its own key to its answer; Vigenère gives the answer without spaces |
| Game.SpeedBonus | src/components/Game.jsx:133-137 | bonus 0..1200; zero unless the average time per puzzle is under 120 s; otherwise ⌊(120 − seconds/index)·10⌋ |
| Game.TimeBonus | src/components/Game.jsx:140-144 | bonus 0..1800, positive exactly when the game took under 900 s |
| Game.Score | src/components/Game.jsx:121-152 | the score is never negative; it is at most base points + 3000; it is at least base points minus both penalties |
| Game.CalculateScore | src/components/Game.jsx:121-152 | the step-by-step total equals the score |
| Game.SpeedBonusAntitone | src/components/Game.jsx:133-137 | more seconds never raise the speed bonus |
| Game.ScoreAntitoneInTime | src/components/Game.jsx:121-152 | more seconds never raise the score |
| Game.PenaltiesLowerScore | src/components/Game.jsx:146-151 | one more hint lowers the score by 0..100; one more skip lowers it by 0..500 |
| Game.LevelAfterSolve | src/components/Game.jsx:179-183 | the level rises by one exactly when the puzzle was solved within the time estimate, without the hint, below level 5; it stays in 1..5 |
| Game.LevelAfterSkip | src/components/Game.jsx:209-212 | the level falls by one exactly when above 1; it stays in 1..5 |
| Game.Session.constructor | src/components/Game.jsx:21-40 | the initial state: waiting, empty queue, cursor 0, level 1, counters zero, no puzzle |
| Game.Session.StartGame | src/components/Game.jsx:62-82 | six fresh level-1 puzzles from the draws; cursor 0; level 1; counters zero; playing; the first puzzle shown |
| Game.Session.CompleteGame | src/components/Game.jsx:154-161 | the score of the rendered counters and cursor is stored; the game is completed; nothing else changes |
| Game.Session.GenerateNextPuzzle | src/components/Game.jsx:84-119 | three puzzles at the rendered level appended when the cursor reaches the last slot; from cursor 15 the game completes; otherwise the puzzle under the cursor shows with the hint hidden and the feedback cleared |
| Game.Session.HandleSubmit | src/components/Game.jsx:163-203 | an exact answer counts a solve, adjusts the level, advances the cursor and moves on; a wrong one only sets the error feedback; with no puzzle nothing changes; the session invariant is kept |
| Game.Session.ClearFeedback | src/components/Game.jsx:199-201 | the timeout after a wrong answer clears the feedback and nothing else |
| Game.Session.HandleSkip | src/components/Game.jsx:205-227 | counts a skip, lowers the level unless at 1, advances the cursor and moves on; the session invariant is kept |
| Game.Session.HandleHint | src/components/Game.jsx:229-232 | every call counts one more hint and shows it |
| Game.Session.RestartGame | src/components/Game.jsx:248-275 | back to the initial waiting state |
| Game.ShownPuzzleSolvable | src/components/Game.jsx:163-166 | in a started session the puzzle on screen is in the queue and decodes to its answer |
| Storage.RanksAboveIsStrictOrder | src/utils/storage.js:28-33 | the leaderboard comparator is a strict order |
| Storage.DisplayName | src/utils/storage.js:19 | an empty player name is stored as "Anonymous", any other as given |
| Storage.TopScoresRanked | src/utils/storage.js:27-36 | the kept list has rooms non-increasing, and time non-decreasing among equal rooms |
| Storage.TopScoresKeepsValid | src/utils/storage.js:28-36 | the kept list has at most ten entries and is sorted by the comparator |
| Storage.TopScores | src/utils/storage.js:25-36 | the list grows by one per save until it holds ten; every kept entry is an old one or the new one |
| Storage.TopScoresNoneInvented | src/utils/storage.js:25-36 | every kept entry is an old entry or the new one, no more often than before |
| Storage.NewEntryPlacement | src/utils/storage.js:25-36 | on a ranked list the new score is kept at its rank, behind its equals, with the entries above unchanged, exactly when fewer than ten rank above it; otherwise the list is unchanged |
| Storage.KeepInserted | src/utils/storage.js:36 | cutting a list with an entry inserted at `k` keeps the entry when `k` < 10 and otherwise gives the first ten old entries |
| Storage.Leaderboard.constructor | src/utils/storage.js:2 | nothing is stored under the key at first |
| Storage.Leaderboard.Board | src/utils/storage.js:4-12 | the stored list, or the empty list when the key is absent |
| Storage.Leaderboard.GetLeaderboard | src/utils/storage.js:4-12 | returns the stored list, or the empty list when nothing is stored |
| Storage.Leaderboard.SaveScore | src/utils/storage.js:14-44 | the new list is the old one with the new score pushed, sorted and cut to ten, and is stored and returned; a failing write returns the stored list unchanged; the list stays ranked and at most ten long |
| Storage.Leaderboard.ClearLeaderboard | src/utils/storage.js:46-52 | the key is removed |
| CipherTools.MoreFrequentIsStrictOrder | src/components/CipherTools.jsx:29 | the frequency comparator is a strict order |
| CipherTools.TallyStep | src/components/CipherTools.jsx:25 | one more letter: its count goes up by one, or starts at one |
| CipherTools.CountedStep | src/components/CipherTools.jsx:24-26 | one loop turn keeps the table's keys in first-seen order and every count equal to the occurrences so far |
| CipherTools.CountLetters | src/components/CipherTools.jsx:21-26 | the table's keys are the text's letters in first-seen order, each with its number of occurrences |
| CipherTools.Entries | src/components/CipherTools.jsx:28 | `Object.entries`: one pair per key, in key order, with its count |
| CipherTools.CountedEntries | src/components/CipherTools.jsx:28 | the finished table's entries are the letters of the text with their counts |
| CipherTools.FrequencyAnalysis | src/components/CipherTools.jsx:20-31 | the loop-and-sort computation returns the ten most frequent letters as specified |
| CipherTools.KeepLettersMembers | src/components/CipherTools.jsx:22 | a character survives cleaning exactly when it is a capital of the text |
| CipherTools.Frequencies | src/components/CipherTools.jsx:20-28 | each entry is a capital with its number of occurrences; no capital twice; every capital of the text has its entry |
| CipherTools.LetterKeys | src/components/CipherTools.jsx:22-26 | the table's keys are capitals, and every capital of the text is a key |
| CipherTools.Tabulate | src/components/CipherTools.jsx:28 | one entry per key, pairing it with its number of occurrences |
| CipherTools.TabulateCovers | src/components/CipherTools.jsx:28 | every key has its entry |
| CipherTools.RankedFacts | src/components/CipherTools.jsx:28-29 | ranking keeps every entry, adds none, and puts counts in non-increasing order |
| CipherTools.TopFrequencies | src/components/CipherTools.jsx:20-31 | at most ten entries; distinct capitals with their true counts; counts non-increasing |
| CipherTools.TopFrequenciesComplete | src/components/CipherTools.jsx:28-30 | every capital of the text is listed, unless ten letters at least as frequent fill the table |
| CipherTools.EntryOf | src/components/CipherTools.jsx:28 | a capital of the text has its entry in the table |
| CipherTools.PositionAfterSort | src/components/CipherTools.jsx:29 | every entry is still present after ranking |
| CipherTools.TopOfRanked | src/components/CipherTools.jsx:29-30 | an entry of the ranked list is kept, or ten entries at least as frequent are |
| CipherTools.ApplyCaesarShift | src/components/CipherTools.jsx:34-44 | same length; non-capitals kept; each capital advanced by the shift mod 26 (no upper-casing) |
| CipherTools.ApplyMatchesEncode | src/components/CipherTools.jsx:34-44 | on text without lower-case letters the tool agrees with `caesarEncode` |
| CipherTools.SliderUndoesShift | src/components/CipherTools.jsx:105-119 | for a cipher text of shift `s` in 1..25, the slider position `26 - s` (in the slider's range) shows the upper-cased plain text |
| CipherTools.Substitute | src/components/CipherTools.jsx:47-52 | never shorter than the text; a text none of whose characters has a non-empty entry is returned unchanged (so a cleared table changes nothing) |
| CipherTools.SubstituteCharwise | src/components/CipherTools.jsx:47-52 | with entries of at most one character, each character is replaced by its non-empty entry or kept; the length is preserved |
| CipherTools.FullSubstitutionDecodes | src/components/CipherTools.jsx:47-52 | a substitution table pairing every glyph with its letter decodes like `symbolDecode` |
| CipherTools.SubstitutionTool.constructor | src/components/CipherTools.jsx:7 | the substitution table starts empty |
| CipherTools.SubstitutionTool.UpdateSubstitution | src/components/CipherTools.jsx:54-59 | the symbol's entry becomes the upper-cased letter; every other entry is unchanged |
| CipherTools.SubstitutionTool.ClearSubstitution | src/components/CipherTools.jsx:61-63 | the table becomes empty |
| CipherTools.RemoveSpacesMembers | src/components/CipherTools.jsx:66 | a character survives the filter exactly when it is a non-space of the text |
| CipherTools.UniqueSymbols | src/components/CipherTools.jsx:65-67 | no repeats; exactly the non-space characters of the text; in order of first occurrence |
| CipherTools.NonSpaceFirstOccurrences | src/components/CipherTools.jsx:66 | the de-duplicated filtered text has the text's non-space characters in first-occurrence order |
| CipherTools.DedupOrderInText | src/components/CipherTools.jsx:66 | first-occurrence order in the filtered text is first-occurrence order in the text |
| CipherTools.RemoveSpacesKeepsOrder | src/components/CipherTools.jsx:66 | dropping spaces keeps the order of first occurrences |
| CipherTools.ToolsFor | src/components/CipherTools.jsx:185-196 | frequency analysis is always offered and first; the Caesar slider exactly for Caesar puzzles; the substitution table exactly for symbol puzzles; no tool is repeated |

## Left out

- Upper-casing covers ASCII letters only. `toUpperCase` also maps other scripts, and a few characters to two; word-bank text is capitals and spaces, so this never arises there.
- Game.SpeedBonus: the source computes `(120 - seconds / index) * 10` in floating point and floors it; the model floors the exact value `(1200·index − 10·seconds) / index`. Rounding in the floating-point steps can make the source one point lower: at 347 seconds and cursor 5 the exact value is 506 while the floating-point product is just below 506, so the game awards 505. Game.Score and Game.CalculateScore inherit this. Division by zero at cursor 0 (which yields `Infinity` or `NaN`, and so no bonus) becomes the explicit `index == 0` case.
- Randomness is not modelled as a distribution. The comparator shuffle `sort(() => Math.random() - 0.5)` is not uniform; the model only uses that it yields some permutation of `SYMBOLS`.
- Timers are left out: the 1.5 s delay after a correct answer, the 1 s feedback reset and the 100 ms restart delay. The model performs each delayed action as its own step (`Game.Session.ClearFeedback`, `Game.Session.StartGame` after `Game.Session.RestartGame`) or at once (the advance after a correct answer). The timer object (`useTimer`) becomes a `seconds` argument.
- React's batching and re-rendering are not modelled beyond the snapshot each handler reads. In particular the effect at Game.jsx:45-49 that starts a game when waiting with an empty queue is a separate `Game.Session.StartGame` call.
- The missions, atmospheric messages, mission briefing and completion messages (narrative text) are not modelled, nor is the mission-status list. They do not affect the queue, level, counters or score.
- The rendering of all components is not modelled, nor the name input and `handleSaveScore` (Game.jsx:234-246), which forwards to `Storage.Leaderboard.SaveScore`. `saveScore` ignores the extra score and statistics arguments that call passes.
- Game.Session.StartGame leaves the hint flag and the feedback as they were, as the source does; `Game.Session.RestartGame` resets them.
- Game.Session.HandleSubmit: the answer is assumed already trimmed, upper-cased and not blank (`Game.Submittable`), as the puzzle box does before calling it (PuzzleBox.jsx is not part of this model).
- Game.Session.HandleSubmit and Game.Session.HandleSkip: state the refilled queue's new puzzles (`Game.GeneratedBatch`) and the session invariant, but not which mission or message is shown.
- Game.ShownPuzzleSolvable and Game.PuzzleDecodes assume the word bank is non-empty and made of capitals and spaces (`Game.WellFormedBank`). wordBank.js is not part of this model.
- Vigenere.ValidKeyword: the encoder and decoder require a non-empty keyword of letters; with an empty keyword the source throws a `TypeError` as soon as the text has a letter (indexing the keyword yields `undefined`), and other keyword characters give non-letters, but every caller passes a keyword from the fixed list (`Vigenere.KeywordsValid`).
- Puzzles.HintText: for a negative Caesar shift the model prints a minus sign and the digits; generated shifts are always 1..25, so the contract speaks of non-negative shifts only.
- Puzzles.Pool: its own contract states only non-emptiness and membership in the bank; the exact choice between the filtered words and the whole bank is `Puzzles.PoolChoice`.
- Storage.Leaderboard.GetLeaderboard: a stored value that is not valid JSON (the `catch` branch, which returns the empty list) is not modelled; the stored value is always a list the model wrote.
- Storage.Leaderboard.SaveScore: a failing write is the `writeFails` argument. Serialisation to JSON, the storage key and the console messages are not modelled. `Storage.Leaderboard.ClearLeaderboard`'s failure branch only logs, so it has no model.
- CipherTools.SubstitutionTool.UpdateSubstitution: the input box's one-character limit (`maxLength`) is not enforced; `CipherTools.SubstituteCharwise` states the tool's behaviour under that limit.
- The Caesar slider's `parseInt` of the range input and the tool tabs' state are not modelled; the slider value is the `shift` argument.
