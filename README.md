# ClearRead games and session statistics in Dafny

ClearRead offers two practice games for phonological awareness, plus a local
progress store.

- In the **syllable game**, the player drags scrambled syllable tiles into an
  answer row until the row spells the word.
- In the **letter-sound game**, the player pairs scrambled sound tiles with
  scrambled letter tiles of a word.
- When a game ends, its session is recorded in a statistics document kept in
  the browser's storage under `dyslexiaGameStats`. The document holds:
  - per game type and difficulty: a bucket of games, words, correct words and
    average accuracy;
  - the 50 newest sessions;
  - a per-word attempt history.
- Two read-only projections derive from the document: the overall totals and
  the improvement suggestions.

The project models these files:

- `my-react-app/src/utils/stats.js`
- the state, handlers and helpers of `my-react-app/src/games/SyllableGame.jsx`
- the state, handlers and helpers of `my-react-app/src/games/LetterSoundGame.jsx`

Modules:

- `Wrappers`: `Option` and `Result`.
- `Dict`: a JavaScript object as an insertion-ordered list of entries.
  - `Get` returns the first entry with the key.
  - `Put` replaces the entry in place, or appends a new one.
  - The order matters because `Object.entries` and `Object.values` enumerate
    in insertion order.
- `StatsModel`: the document and the functions that specify each operation of
  `stats.js`.
  - A JavaScript `a / b || 0` is a `Number`, which is either a finite real or
    `PosInfinity`. A positive count over zero is `Infinity` in JavaScript, and
    `|| 0` keeps it.
- `StatsStorage`: class `Store`, whose `slot` is the storage item. Its methods
  are the functions of `stats.js`, with the source's loops, and each is proved
  to compute its `StatsModel` function.
- `StatsProofs`: what `stats.js` promises, as lemmas about `StatsModel`.
- `GameCommon`: code that both games carry in identical copies:
  - `scrambleArray`;
  - the parsing of the custom word list;
  - the choice of the word source;
  - `filter` by index;
  - the counting of results.
- `GameCommonProofs`: lemmas about `GameCommon`.
- `SyllableGame` and `LetterSoundGame`: each game's component state is a
  `class Game`, and each handler is a method with a `modifies this` frame.
  - `Valid()` is the invariant that every handler keeps.
  - Each handler's `requires` states what the rendered page guarantees. For
    example, an index comes from a tile on screen, and Next is shown only after
    a success.
- `SyllableProofs` and `LetterSoundProofs`: lemmas about each game's answer
  row, tiles and pairs.

These inputs become parameters:

- **Randomness:** `Math.random` in `scrambleArray` is an arbitrary choice of
  the swap position.
- **Clock and identifiers:** the clock, the session id and the ISO date.
- **Write failures:** the `writeFails` flag on every write.
- **Word files:** the three bundled word files are a `Banks` value.
- **Language-model call:** `processMultipleWords` is a function
  `process: seq<string> -> Result<seq<Word>>`.

A stored item that does not parse is the empty slot, which `loadStats` treats
the same way.

## Model

| member | source | states |
|---|---|---|
| Dict.Get | my-react-app/src/utils/stats.js:56-59 | a property lookup finds a value exactly when the key is one of the object's keys |
| Dict.KeysPut | my-react-app/src/utils/stats.js:56-66 | assigning a property keeps the key order of an existing key and appends a new key at the end |
| Dict.GetPutSame | my-react-app/src/utils/stats.js:68-73 | after an assignment the property reads the assigned value |
| Dict.GetPutOther | my-react-app/src/utils/stats.js:68-73 | an assignment leaves every other property as it was |
| StatsStorage.Store.constructor | my-react-app/src/utils/stats.js:3 | the store starts with the given item under the storage key |
| StatsStorage.Store.LoadStats | my-react-app/src/utils/stats.js:26-36 | the stored document, or the initial document when there is no readable item |
| StatsStorage.Store.SaveStats | my-react-app/src/utils/stats.js:39-45 | the item becomes the document, and a failed write is swallowed, leaving the item unchanged |
| StatsStorage.Store.ClearStats | my-react-app/src/utils/stats.js:178-180 | the item is removed, so the next load gives the initial document |
| StatsStorage.Store.RecordSession | my-react-app/src/utils/stats.js:48-113 | returns the loaded document updated by `Recorded` and stores it (unless the write fails) |
| StatsStorage.Store.GetOverallStats | my-react-app/src/utils/stats.js:116-138 | the nested loops compute `Overall` of the loaded document |
| StatsStorage.Store.GetImprovementSuggestions | my-react-app/src/utils/stats.js:141-175 | computes `Suggestions` of the loaded document: the low-accuracy suggestions, then the problem-words suggestion |
| StatsStorage.UpdateBucket | my-react-app/src/utils/stats.js:55-73 | the lazy creation of the game type and bucket, then the counter update, gives `RecordedBuckets` |
| StatsStorage.CountWords | my-react-app/src/utils/stats.js:93-109 | the `forEach` over the session's words gives `AddAttempts` |
| StatsStorage.CollectAllLowAccuracy | my-react-app/src/utils/stats.js:146-158 | the outer `forEach` collects the low-accuracy suggestions of every game type in order |
| StatsStorage.CollectLowAccuracy | my-react-app/src/utils/stats.js:147-157 | the inner `forEach` collects one suggestion per qualifying bucket of one game type |
| StatsProofs.InitialStatsShape | my-react-app/src/utils/stats.js:6-23 | the initial document is valid, has game types syllable then lettersound, and has a zero bucket exactly for those two types and the four difficulties; it has no sessions and no word history |
| StatsProofs.RecordUpdatesBucket | my-react-app/src/utils/stats.js:53-73 | after recording, the session's bucket (created at zero if absent) has one more game, the session's words and correct words added, and accuracy = correct / words, or 0 |
| StatsProofs.FirstSessionBucket | my-react-app/src/utils/stats.js:53-73 | five words with four right, recorded into a fresh document, give the easy syllable bucket 1, 5, 4 and 0.8 |
| StatsProofs.RecordLeavesOtherBuckets | my-react-app/src/utils/stats.js:55-73 | every other bucket, present or absent, is unchanged |
| StatsProofs.RecordKeepsGameTypeOrder | my-react-app/src/utils/stats.js:56-58 | game types keep their order, and a new type is appended at the end |
| StatsProofs.RecordPrependsSession | my-react-app/src/utils/stats.js:87-90 | the new session is first, followed by the previous sessions in order, and the list holds min(old + 1, 50) entries, so the oldest is evicted at the cap |
| StatsProofs.NewSessionFields | my-react-app/src/utils/stats.js:76-85 | the session's difficulty is resolved with `\|\| "custom"`, its accuracy is correct / completed or 0 when both are 0, timeSpent defaults to 0, and the session is valid when correct <= completed |
| StatsProofs.AddAttemptAt | my-react-app/src/utils/stats.js:95-107 | one non-empty key gets one more attempt with its correct count unchanged; an empty key, or any other key, is untouched |
| StatsProofs.AttemptsCounted | my-react-app/src/utils/stats.js:93-109 | a word's attempts grow by exactly the number of its occurrences in the session's list |
| StatsProofs.UnmentionedUntouched | my-react-app/src/utils/stats.js:93-109 | words that do not occur in the list, and the empty key, keep their history entry (or its absence) |
| StatsProofs.CorrectUnchanged | my-react-app/src/utils/stats.js:97-106 | recording never changes any word's correct count |
| StatsProofs.InheritedKeyNotCounted | my-react-app/src/utils/stats.js:97-104 | as written, the word "constructor" is never added to the history, while the corrected update counts it once |
| StatsProofs.AccumulateValid | my-react-app/src/utils/stats.js:68-73 | a bucket update keeps correct <= total and accuracy = correct / total |
| StatsProofs.RecordKeepsValid | my-react-app/src/utils/stats.js:48-113 | with wordsCorrect <= wordsCompleted, recording keeps the document valid: distinct keys, consistent buckets, valid sessions, at most 50 sessions, attempts >= correct in the history |
| StatsProofs.ValidBucketBounds | my-react-app/src/utils/stats.js:68-73 | in a valid document, every bucket has correct <= total and a finite accuracy in [0, 1] |
| StatsProofs.RecordStep | my-react-app/src/utils/stats.js:53-73 | one recording adds one game and its words to its own bucket and leaves every other bucket as it was |
| StatsProofs.CumulativeBucket | my-react-app/src/utils/stats.js:68-73 | after any sequence of recordings, a bucket holds the old counts plus the sums over exactly the recordings that went to it |
| StatsProofs.AccumulateTwice | my-react-app/src/utils/stats.js:69-73 | two updates in a row equal one update by the sums |
| StatsProofs.AccuracyIsLifetimeRatio | my-react-app/src/utils/stats.js:68-73 | from the initial document, a bucket's accuracy is the sum of correct words over the sum of words across all its sessions (cumulative, not windowed) |
| StatsProofs.OverallAfterRecord | my-react-app/src/utils/stats.js:116-128 | after recording, the overall games, words and correct totals grow by 1, wordsCompleted and wordsCorrect |
| StatsProofs.OverallBounds | my-react-app/src/utils/stats.js:116-137 | for a valid document, totalCorrect <= totalWords, overall accuracy is in [0, 1] and is 0 when there are no words, and the recent sessions are the first min(10, n) stored ones |
| StatsProofs.RatioInUnit | my-react-app/src/utils/stats.js:134 | a correct count over a larger, positive total lies in [0, 1] |
| StatsProofs.LowAccuracyInMembers | my-react-app/src/utils/stats.js:147-157 | a game type yields a suggestion exactly for each bucket with more than 5 words and a finite accuracy below 0.7, carrying that accuracy |
| StatsProofs.LowAccuracyExactly | my-react-app/src/utils/stats.js:146-158 | in a document with distinct keys, a low-accuracy suggestion is present iff its bucket exists, has more than 5 words and an accuracy below 0.7, and the suggestion carries that accuracy |
| StatsProofs.LowAccuracyOnly | my-react-app/src/utils/stats.js:146-158 | the bucket pass yields only low-accuracy suggestions |
| StatsProofs.SuggestionsOrder | my-react-app/src/utils/stats.js:141-175 | the low-accuracy suggestions come first, and the problem-words suggestion, if any, comes only last |
| StatsProofs.ProblemEntriesAreProblems | my-react-app/src/utils/stats.js:161-162 | every candidate is a history entry with at least 3 attempts and a success ratio below 0.5 |
| StatsProofs.SortByRatioMultiset | my-react-app/src/utils/stats.js:163 | sorting is a permutation of the candidates |
| StatsProofs.SortByRatioSorted | my-react-app/src/utils/stats.js:163 | the sorted candidates are in ascending order of success ratio (worst first) |
| StatsProofs.WithRatioCons | my-react-app/src/utils/stats.js:163 | the candidates of ratio r in a list are its head, when the head has ratio r, followed by those of the rest |
| StatsProofs.InsertByRatioWithRatio | my-react-app/src/utils/stats.js:163 | inserting a candidate puts it ahead of every candidate of its own ratio and leaves the order of every other ratio's candidates unchanged |
| StatsProofs.SortByRatioStable | my-react-app/src/utils/stats.js:163 | the sort is stable: for every ratio r, the candidates with ratio r appear in the sorted list in the same order as in the history |
| StatsProofs.SortByRatioUniform | my-react-app/src/utils/stats.js:163 | when every candidate has the same ratio, sorting leaves the list unchanged |
| StatsProofs.SortedTransitive | my-react-app/src/utils/stats.js:163 | in a list sorted by ratio, every earlier entry has a ratio no higher than every later one |
| StatsProofs.ProblemWordsBounded | my-react-app/src/utils/stats.js:161-164 | the problem words are min(5, number of candidates) history words, each with at least 3 attempts and a success ratio below 0.5 |
| StatsProofs.SortedPrefixLowest | my-react-app/src/utils/stats.js:163-164 | in a list sorted by ratio, an entry whose key is not among the first n keys has a ratio no lower than any of the first n |
| StatsProofs.ProblemWordLowestAt | my-react-app/src/utils/stats.js:161-164 | for one candidate left off the problem-words list and one listed word, the listed word's success ratio is no higher than the candidate's |
| StatsProofs.ProblemWordsLowest | my-react-app/src/utils/stats.js:161-164 | the list takes the lowest ratios: no candidate left off the problem-words list has a lower success ratio than a listed word |
| StatsProofs.ProblemEntriesWhenNoneCorrect | my-react-app/src/utils/stats.js:161-162 | with no correct counts (the only history `recordSession` builds), the candidates are exactly the words with at least 3 attempts, at ratio 0 |
| StatsProofs.ProblemWordsInInsertionOrder | my-react-app/src/utils/stats.js:161-169 | for any valid document, the problem words are the first 5 words with at least 3 attempts, in history order |
| GameCommon.Scramble | my-react-app/src/games/SyllableGame.jsx:270-277 | `scrambleArray` returns a permutation of its input, whatever positions the random choice picks |
| GameCommon.RemoveAt | my-react-app/src/games/SyllableGame.jsx:433 | filtering out a position drops exactly one element, and an index outside the list drops none |
| GameCommon.RemoveAtShifts | my-react-app/src/games/LetterSoundGame.jsx:466 | elements before the removed position stay in place, and those after it move down by one |
| GameCommon.RemoveAtMultiset | my-react-app/src/games/LetterSoundGame.jsx:447-449 | removing a position takes exactly that element out of the multiset |
| GameCommon.ParseWordList | my-react-app/src/games/SyllableGame.jsx:363-378 | every refusal of the custom list carries the message "Please enter at least one word" |
| GameCommon.BankFor | my-react-app/src/games/SyllableGame.jsx:339-351 | the `switch` picks a word file exactly for easy, medium and hard |
| GameCommon.ChooseWords | my-react-app/src/games/SyllableGame.jsx:336-385 | a game never starts with an empty word list |
| GameCommon.AllFalse | my-react-app/src/games/SyllableGame.jsx:393 | one false result per word, at the start |
| GameCommonProofs.TrimStartSuffix | my-react-app/src/games/SyllableGame.jsx:371 | trimming the start leaves a suffix |
| GameCommonProofs.TrimEndPrefix | my-react-app/src/games/SyllableGame.jsx:371 | trimming the end leaves a prefix |
| GameCommonProofs.TrimStartEmpty | my-react-app/src/games/SyllableGame.jsx:371 | trimming the start empties a string iff it is all whitespace |
| GameCommonProofs.TrimEndEmpty | my-react-app/src/games/SyllableGame.jsx:371 | trimming the end empties a string iff it is all whitespace |
| GameCommonProofs.TrimEmpty | my-react-app/src/games/SyllableGame.jsx:363 | `trim()` is empty iff the input is all whitespace |
| GameCommonProofs.TrimIsTrimmedSlice | my-react-app/src/games/SyllableGame.jsx:371 | the trimmed string is a slice of the input with no whitespace at either end |
| GameCommonProofs.TrimTrimmed | my-react-app/src/games/SyllableGame.jsx:371 | trimming is idempotent on an already trimmed string |
| GameCommonProofs.SplitPiecesHaveNoSeparator | my-react-app/src/games/SyllableGame.jsx:370 | no piece of `split(/[,\n]/)` contains a comma or a newline |
| GameCommonProofs.SplitAfterWord | my-react-app/src/games/SyllableGame.jsx:370 | text without separators joins the first piece of what follows it |
| GameCommonProofs.SplitAllBlank | my-react-app/src/games/SyllableGame.jsx:369-374 | every piece trims to empty iff the input has no visible character (neither a separator nor whitespace) |
| GameCommonProofs.TrimAndDropEmptyIsEmpty | my-react-app/src/games/SyllableGame.jsx:371-372 | the cleaned list is empty iff every piece trims to empty |
| GameCommonProofs.TrimAndDropEmptyEntries | my-react-app/src/games/SyllableGame.jsx:371-372 | every word of the cleaned list is the non-empty trim of one piece |
| GameCommonProofs.TrimAndDropEmptyClean | my-react-app/src/games/SyllableGame.jsx:371-372 | a list of non-empty trimmed words is unchanged by the cleaning |
| GameCommonProofs.ParsedWordsAreClean | my-react-app/src/games/SyllableGame.jsx:369-372 | an accepted custom list is non-empty, and each word is non-empty, trimmed and free of separators |
| GameCommonProofs.ParseSucceedsIff | my-react-app/src/games/SyllableGame.jsx:363-378 | the custom list is accepted iff the input has a visible character, so the second emptiness check never fires |
| GameCommonProofs.SplitJoin | my-react-app/src/games/SyllableGame.jsx:370 | splitting a comma-joined list of separator-free words gives the words back |
| GameCommonProofs.ParseJoinRoundTrip | my-react-app/src/games/SyllableGame.jsx:369-372 | parsing the comma-joined list of clean words gives exactly those words |
| GameCommonProofs.CountTrueBound | my-react-app/src/games/SyllableGame.jsx:475-476 | wordsCorrect <= wordsCompleted, with equality iff every result is true |
| GameCommonProofs.CountTrueAllFalse | my-react-app/src/games/SyllableGame.jsx:393 | a fresh game counts no correct words |
| GameCommonProofs.ChooseWordsCases | my-react-app/src/games/SyllableGame.jsx:336-385 | the possible outcomes: an unknown truthy difficulty gives "Invalid difficulty level"; a word file gives its items converted in order, or "No words were successfully processed" when the file is empty; a blank custom input gives "Please enter at least one word"; otherwise the processed words, the same no-words error when the list is empty, or the processing error message (or "Failed to process words" when that message is empty) |
| SyllableGame.Judge | my-react-app/src/games/SyllableGame.jsx:438-461 | there is a verdict exactly when the row is as long as the word |
| SyllableGame.Game.constructor | my-react-app/src/games/SyllableGame.jsx:209-221 | the initial state: no game, no words, an empty row and no verdict |
| SyllableGame.Game.StartGame | my-react-app/src/games/SyllableGame.jsx:326-399 | resets the row and the verdict; on failure shows the message and keeps the words, position, results and palette as they were; on success starts with the chosen words, one false result each, and a scrambled permutation of the first word's syllables |
| SyllableGame.Game.BeginWith | my-react-app/src/games/SyllableGame.jsx:390-393 | the first word is dealt and the invariant is established |
| SyllableGame.Game.CheckAnswer | my-react-app/src/games/SyllableGame.jsx:438-461 | the verdict is `Judge` of the row, stored as the word's result when there is one; nothing else changes |
| SyllableGame.Game.HandleDrop | my-react-app/src/games/SyllableGame.jsx:401-411 | a tile whose index is unused is appended, the row is judged and a verdict is stored as the word's result; otherwise nothing changes; the difficulty and error are kept, and the invariant holds |
| SyllableGame.Game.HandleMove | my-react-app/src/games/SyllableGame.jsx:413-430 | the row becomes `Moved` and is judged, with a verdict stored as the word's result; the row keeps distinct palette tiles, and the difficulty and error are kept |
| SyllableGame.Game.HandleRemove | my-react-app/src/games/SyllableGame.jsx:432-436 | the row loses the tile at the index (none if out of range) and is judged, with a verdict stored as the word's result; the difficulty and error are kept |
| SyllableGame.Game.HandleNext | my-react-app/src/games/SyllableGame.jsx:463-498 | after a correct answer, either the next word is scrambled with the row and verdict cleared and the difficulty kept for the eventual recording, or the session is recorded with wordsCorrect = wordsCompleted = the number of words and the game ends |
| SyllableGame.Game.NextQuestion | my-react-app/src/games/SyllableGame.jsx:464-469 | the next word's syllables are dealt as a permutation, with the row and verdict cleared, and the difficulty and error kept |
| SyllableGame.Game.EndGame | my-react-app/src/games/SyllableGame.jsx:488-497 | the state returns to the start screen |
| SyllableGame.DroppedKeepsRow | my-react-app/src/games/SyllableGame.jsx:401-411 | a drop keeps the row made of distinct palette tiles |
| SyllableGame.MoveWithinSources | my-react-app/src/games/SyllableGame.jsx:424-425 | the two splices rearrange the row: each position takes a different source position |
| SyllableGame.InsertKeepsRow | my-react-app/src/games/SyllableGame.jsx:416-422 | inserting an unused palette tile keeps the row made of distinct palette tiles |
| SyllableGame.MoveWithinKeepsRow | my-react-app/src/games/SyllableGame.jsx:423-426 | moving within the row keeps it made of distinct palette tiles |
| SyllableGame.MovedKeepsRow | my-react-app/src/games/SyllableGame.jsx:413-430 | every `handleMove` keeps the row made of distinct palette tiles |
| SyllableGame.RemovedKeepsRow | my-react-app/src/games/SyllableGame.jsx:432-436 | removal keeps the row made of distinct palette tiles |
| SyllableGame.AllCorrectAtEnd | my-react-app/src/games/SyllableGame.jsx:475-476 | when every result is true, the correct count equals the number of words |
| SyllableProofs.DropAppendsIfAbsent | my-react-app/src/games/SyllableGame.jsx:401-411 | after a drop the index is used; the row changes iff it was unused, and then only by appending the tile |
| SyllableProofs.MoveWithinPermutes | my-react-app/src/games/SyllableGame.jsx:423-426 | a move keeps the row's length and tiles and puts the moved tile at the target |
| SyllableProofs.MoveWithinKeepsOthers | my-react-app/src/games/SyllableGame.jsx:423-426 | the other tiles keep their relative order |
| SyllableProofs.MoveOntoItself | my-react-app/src/games/SyllableGame.jsx:423 | moving onto its own place changes nothing, so the `fromIndex !== toIndex` guard only saves work |
| SyllableProofs.MovedShape | my-react-app/src/games/SyllableGame.jsx:413-430 | a new palette tile is inserted at the target and the row grows by one; any other call keeps the row's length and tiles |
| SyllableProofs.AnswerInOrder | my-react-app/src/games/SyllableGame.jsx:447-455 | a row holding the word's syllables in order spells the target answer |
| SyllableProofs.InOrderIsCorrect | my-react-app/src/games/SyllableGame.jsx:438-461 | placing the word's syllables in order is judged correct |
| SyllableProofs.PartialRowHasNoVerdict | my-react-app/src/games/SyllableGame.jsx:441-444 | a row of the wrong length gets no verdict |
| SyllableProofs.IndexSetSize | my-react-app/src/games/SyllableGame.jsx:402-404 | a row of distinct indices has as many indices as tiles |
| SyllableProofs.RowNoLongerThanPalette | my-react-app/src/games/SyllableGame.jsx:814-826 | a row of distinct palette tiles never holds more tiles than the palette |
| LetterSoundGame.Tiles | my-react-app/src/games/LetterSoundGame.jsx:392-403 | one tile per letter-sound |
| LetterSoundGame.Game.constructor | my-react-app/src/games/LetterSoundGame.jsx:170-185 | the initial state: no game, no tiles, no pairs and no selection |
| LetterSoundGame.Game.InitializeGame | my-react-app/src/games/LetterSoundGame.jsx:391-411 | both lists are independent permutations of the word's tiles; pairs, selections and the success flag are cleared |
| LetterSoundGame.Game.StartGame | my-react-app/src/games/LetterSoundGame.jsx:312-389 | clears pairs, selections and the flag; on failure shows the message; on success deals the first of the chosen words, with one false result each |
| LetterSoundGame.Game.BeginWith | my-react-app/src/games/LetterSoundGame.jsx:377-383 | the first word is dealt and the invariant is established |
| LetterSoundGame.Game.HandleSoundClick | my-react-app/src/games/LetterSoundGame.jsx:413-420 | clicking the selected sound deselects it; another sound becomes the selection and clears the letter selection; nothing else changes |
| LetterSoundGame.Game.CheckCompletion | my-react-app/src/games/LetterSoundGame.jsx:478-486 | once both lists are empty, the flag and the word's result become whether every pair is right; otherwise nothing changes |
| LetterSoundGame.Game.HandleLetterClick | my-react-app/src/games/LetterSoundGame.jsx:422-462 | clicking the selected letter deselects it; with a sound selected, both tiles leave their lists as one new judged pair and the word is checked, its flag and result unchanged while tiles remain; otherwise the letter becomes the selection; the difficulty and error are kept |
| LetterSoundGame.Game.MatchSelected | my-react-app/src/games/LetterSoundGame.jsx:426-455 | the new pair holds the selected sound and the clicked letter, both tiles leave their lists, and the selections clear; the flag, results, difficulty and error are kept |
| LetterSoundGame.Game.HandleUnmatch | my-react-app/src/games/LetterSoundGame.jsx:464-476 | the pair is removed, its tiles go back at the ends of their lists, the flag clears, and the selections, difficulty and error are kept |
| LetterSoundGame.Game.HandleNext | my-react-app/src/games/LetterSoundGame.jsx:488-524 | after a success, either the next word is dealt with the selections cleared and the difficulty kept for the eventual recording, or the session is recorded with wordsCorrect = wordsCompleted = the number of words and the game ends |
| LetterSoundGame.Game.NextWord | my-react-app/src/games/LetterSoundGame.jsx:489-493 | the next word is dealt with no pairs, no selection and the flag cleared, and the difficulty and error kept |
| LetterSoundGame.Game.FinishGame | my-react-app/src/games/LetterSoundGame.jsx:494-523 | the session is recorded with every word counted correct, and the game ends |
| LetterSoundGame.Game.EndGame | my-react-app/src/games/LetterSoundGame.jsx:512-523 | the state returns to the start screen |
| LetterSoundGame.ConservedAtDeal | my-react-app/src/games/LetterSoundGame.jsx:405-407 | a fresh deal holds every tile of the word once on each side |
| LetterSoundGame.PairsJudgedAppend | my-react-app/src/games/LetterSoundGame.jsx:431-441 | a new pair's verdict is the comparison of its tiles' indices |
| LetterSoundGame.MatchConserves | my-react-app/src/games/LetterSoundGame.jsx:443-452 | a match moves one tile from each list into the pairs, losing and creating none |
| LetterSoundGame.UnmatchConserves | my-react-app/src/games/LetterSoundGame.jsx:464-474 | an unmatch moves the pair's tiles back, losing and creating none |
| LetterSoundProofs.TileOfWord | my-react-app/src/games/LetterSoundGame.jsx:392-403 | a tile of the word is the one built for its own index |
| LetterSoundProofs.DealtIndices | my-react-app/src/games/LetterSoundGame.jsx:391-411 | a dealt list holds one tile per letter-sound, and its original indices are exactly 0 to n-1, each once |
| LetterSoundProofs.ConservedCounts | my-react-app/src/games/LetterSoundGame.jsx:443-474 | each list's length plus the number of pairs is the word's letter-sound count |
| LetterSoundProofs.CompletionMeansOwnLetters | my-react-app/src/games/LetterSoundGame.jsx:478-486 | once every tile is paired, the word is a success iff every sound is paired with its own letter tile, and the paired sounds are the word's tiles |
| LetterSoundProofs.PairVerdict | my-react-app/src/games/LetterSoundGame.jsx:431 | a pair of the word's tiles is right iff the two tiles are the same letter-sound |

## Left out

- Serialisation: JSON parsing and writing, the storage key's string form, and console logging. A stored item that does not parse is the empty slot, and a rejected write is the `writeFails` flag.
- Session id, date and time: these are parameters, and the id's uniqueness is not modelled. `Math.round` of the elapsed time happens before the model sees `timeSpent`.
- Randomness: `Math.random` in `scrambleArray` is an arbitrary choice. The model proves that the result is a permutation for every choice, but not that the permutation is uniform.
- The suggestion `message` strings, and the percentage in them, are not modelled, since they only format fields the model keeps.
- Property order for integer-like keys: JavaScript enumerates such keys before the others. The model keeps plain insertion order, which agrees for every key the games produce.
- `StatsModel.AddAttempt`: as used by the rest of the model, it checks only the word's own key. The source's check also sees inherited `Object.prototype` names; see Findings, where `StatsModel.AddAttemptAsWritten` models that.
- Language-model processing: `processMultipleWords` (ai.js) is not part of this model. It is the `process` parameter, and the model keeps its failure message or falls back to "Failed to process words". The same holds for the syllable game's and letter-sound game's own wrappers around it.
- Presentation and browser features: speech synthesis, JSX rendering, animation, the loading flag, `showCustomInput`, and the dashboard and game selector components.
- Nested drop dispatch: react-dnd may deliver one drop to both the inner tile target (`handleMove`) and the outer zone (`handleDrop`). The model treats each handler call on its own and does not model that ordering.
- Asynchrony: the `await` in `handleStartGame` and React's batching of state updates. Each handler runs to completion on the state it was called with, which matches how the handlers read their state.
- Input checks: the handlers' `requires` clauses take indices from tiles on screen, and the Next button only after a success. This matches the rendered page.
- `LetterSoundGame.Game.StartGame`: requires the start screen (`!gameStarted`), where its buttons are.
- `SyllableGame.SyllableText`: a syllable with empty text is rendered as "[object Object]", as `syllable?.text || syllable` does on an object. That string is the only fallback value modelled.
- Counters: `wordsCompleted`, `wordsCorrect` and `timeSpent` are `nat`. Both games pass only word counts and a rounded elapsed time, so negative or fractional values never reach `recordSession` and are not modelled.
- A word with no letter-sounds can never be completed, because `checkCompletion` runs only after a match. The model reproduces this and does not repair it.

Behaviours of the code worth noting:

- The difficulty is resolved with `difficulty || "custom"`, so an empty string also becomes "custom".
- New word-history entries are created with `correct: 0`. Every success ratio is therefore 0, and every word with at least 3 attempts is a problem word (`StatsProofs.ProblemEntriesWhenNoneCorrect`).
- A bucket's accuracy is `Infinity` when the correct words exceed zero total words. Valid input never produces this (`StatsProofs.ValidBucketBounds`), but the model keeps the value.
- The overall totals and the suggestions are enumerated in document order.

## Findings

| source | as written | input that shows it | evidently intended | confidence | as-written member | corrected member |
|---|---|---|---|---|---|---|
| my-react-app/src/utils/stats.js:97-106 | `!stats.wordHistory[wordKey]` also finds properties inherited from `Object.prototype`, so no entry is created for such a word. Incrementing `attempts` on the inherited function then produces `NaN` on a property that `JSON.stringify` drops, so the word's attempts are never stored. | a session whose words include "constructor" (or "toString", "valueOf", ...) | every non-empty word gets its own history entry and one attempt per occurrence | not executed | StatsProofs.InheritedKeyNotCounted | StatsProofs.AttemptsCounted |
